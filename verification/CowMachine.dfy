/** Copy-on-write on values: address spaces map objects to places in a heap of object states, and a
    place is written in place exactly when its owner is the key of the writing space. Keys are 32 bits
    wide and wrap around. */
module CowMachine {
  import opened Words

  /** What an object state holds. */
  datatype Cell = Cell(bytes: seq<int>, readOnly: bool)

  type Memory = map<nat, Cell>

  datatype Op =
    | ForkOp(space: nat)
    | BindOp(space: nat, mo: nat, cell: Cell)
    | UnbindOp(space: nat, mo: nat)
    | WriteOp(space: nat, mo: nat, offset: nat, value: int)

  // --- The machine in which every fork copies all memory -------------------------------------------

  /** Memory after a write of one byte. Unbound and read-only objects and offsets outside an object are left alone. */
  function Stored(view: Memory, mo: nat, offset: nat, value: int): Memory
  {
    if mo !in view || view[mo].readOnly || offset >= |view[mo].bytes| then view
    else view[mo := Wrote(view[mo], offset, value)]
  }

  function Wrote(cell: Cell, offset: nat, value: int): Cell
    requires offset < |cell.bytes|
  {
    cell.(bytes := cell.bytes[offset := value])
  }

  function DeepStep(views: seq<Memory>, op: Op): seq<Memory>
  {
    if op.space >= |views| then views
    else
      match op
      case ForkOp(i) => views + [views[i]]
      case BindOp(i, mo, cell) =>
        var view: Memory := views[i][mo := cell];
        views[i := view]
      case UnbindOp(i, mo) => views[i := views[i] - {mo}]
      case WriteOp(i, mo, offset, value) => views[i := Stored(views[i], mo, offset, value)]
  }

  function DeepRun(ops: seq<Op>): seq<Memory>
  {
    if ops == [] then [map[]] else DeepStep(DeepRun(ops[..|ops| - 1]), ops[|ops| - 1])
  }

  // --- The machine that shares ---------------------------------------------------------------------

  datatype Place = Place(owner: nat, cell: Cell)
  datatype Space = Space(key: nat, objects: map<nat, nat>)
  datatype Machine = Machine(heap: seq<Place>, spaces: seq<Space>)

  predicate InHeap(m: Machine, i: nat)
    requires i < |m.spaces|
  {
    forall mo :: mo in m.spaces[i].objects ==> m.spaces[i].objects[mo] < |m.heap|
  }

  predicate WellFormed(m: Machine)
  {
    forall i :: 0 <= i < |m.spaces| ==> InHeap(m, i)
  }

  /** The memory a space sees. */
  function View(m: Machine, i: nat): Memory
    requires i < |m.spaces| && InHeap(m, i)
  {
    map mo | mo in m.spaces[i].objects :: m.heap[m.spaces[i].objects[mo]].cell
  }

  function Views(m: Machine): seq<Memory>
    requires WellFormed(m)
  {
    seq(|m.spaces|, i requires 0 <= i < |m.spaces| => View(m, i))
  }

  function Rebound(s: Space, mo: nat, x: nat): Space
  {
    var objects: map<nat, nat> := s.objects[mo := x];
    Space(s.key, objects)
  }

  /** A write that is not refused, and the place it is to. */
  predicate Writes(m: Machine, op: Op)
    requires WellFormed(m)
  {
    && op.WriteOp? && op.space < |m.spaces| && op.mo in m.spaces[op.space].objects
    && var cell := View(m, op.space)[op.mo]; !cell.readOnly && op.offset < |cell.bytes|
  }

  function Written(m: Machine, op: Op): (x: nat)
    requires WellFormed(m) && Writes(m, op)
    ensures x < |m.heap|
  {
    assert InHeap(m, op.space);
    m.spaces[op.space].objects[op.mo]
  }

  function Step(m: Machine, op: Op): Machine
    requires WellFormed(m)
  {
    if op.space >= |m.spaces| then m
    else
      var i, s := op.space, m.spaces[op.space];
      match op
      case ForkOp(_) =>
        var fork := Space((s.key + 1) % W32, s.objects);
        m.(spaces := m.spaces[i := fork] + [fork])
      case BindOp(_, mo, cell) =>
        Machine(m.heap + [Place(s.key, cell)], m.spaces[i := Rebound(s, mo, |m.heap|)])
      case UnbindOp(_, mo) => m.(spaces := m.spaces[i := Space(s.key, s.objects - {mo})])
      case WriteOp(_, mo, offset, value) =>
        if !Writes(m, op) then m
        else
          var x := Written(m, op);
          var cell := Wrote(m.heap[x].cell, offset, value);
          if m.heap[x].owner == s.key then m.(heap := m.heap[x := Place(s.key, cell)])
          else Machine(m.heap + [Place(s.key, cell)], m.spaces[i := Rebound(s, mo, |m.heap|)])
  }

  /** The machine after getWriteable: the object's place belongs to the space. */
  function Obtained(m: Machine, i: nat, mo: nat): (r: Machine)
    requires WellFormed(m) && i < |m.spaces| && mo in m.spaces[i].objects
    ensures |r.spaces| == |m.spaces| && mo in r.spaces[i].objects && r.spaces[i].objects[mo] < |r.heap|
  {
    assert InHeap(m, i);
    var s, x := m.spaces[i], m.spaces[i].objects[mo];
    if m.heap[x].owner == s.key then m
    else Machine(m.heap + [Place(s.key, m.heap[x].cell)], m.spaces[i := Rebound(s, mo, |m.heap|)])
  }

  function Put(m: Machine, x: nat, cell: Cell): Machine
    requires x < |m.heap|
  {
    m.(heap := m.heap[x := Place(m.heap[x].owner, cell)])
  }

  /** A write that is not refused is a store through getWriteable. */
  lemma {:induction false} WriteStep(m: Machine, op: Op)
    requires WellFormed(m) && op.WriteOp?
    ensures !Writes(m, op) ==> Step(m, op) == m
    ensures Writes(m, op) ==>
      var r := Obtained(m, op.space, op.mo);
      var x := r.spaces[op.space].objects[op.mo];
      op.offset < |r.heap[x].cell.bytes| && Step(m, op) == Put(r, x, Wrote(r.heap[x].cell, op.offset, op.value))
  {
    hide Wrote;
  }

  lemma {:induction false} StepWellFormed(m: Machine, op: Op)
    requires WellFormed(m)
    ensures WellFormed(Step(m, op))
  {
    var m' := Step(m, op);
    forall i | 0 <= i < |m'.spaces|
      ensures InHeap(m', i)
    {
      if i < |m.spaces| {
        assert InHeap(m, i);
      }
      if op.space < |m.spaces| {
        assert InHeap(m, op.space);
      }
    }
  }

  const START: Machine := Machine([], [Space(1, map[])])

  function Run(ops: seq<Op>): (m: Machine)
    ensures WellFormed(m)
  {
    if ops == [] then START
    else
      var before := Run(ops[..|ops| - 1]);
      StepWellFormed(before, ops[|ops| - 1]);
      Step(before, ops[|ops| - 1])
  }

  // --- When sharing shows ----------------------------------------------------------------------------

  /** The operation changes a place that its own space owns and that is bound a second time. */
  ghost predicate Shows(m: Machine, op: Op)
    requires WellFormed(m)
  {
    && Writes(m, op) && m.heap[Written(m, op)].owner == m.spaces[op.space].key
    && m.heap[Written(m, op)].cell.bytes[op.offset] != op.value
    && exists j, mo :: BoundAt(m, j, mo, Written(m, op)) && !(j == op.space && mo == op.mo)
  }

  predicate BoundAt(m: Machine, j: nat, mo: nat, x: nat)
  {
    j < |m.spaces| && mo in m.spaces[j].objects && m.spaces[j].objects[mo] == x
  }

  /** A new place at the end of the heap, bound in one space, shows in that space only. */
  lemma {:induction false} NewPlace(m: Machine, i: nat, mo: nat, p: Place)
    requires WellFormed(m) && i < |m.spaces|
    ensures var m' := Machine(m.heap + [p], m.spaces[i := Rebound(m.spaces[i], mo, |m.heap|)]);
      WellFormed(m') && var view: Memory := View(m, i)[mo := p.cell]; Views(m') == Views(m)[i := view]
  {
    var m' := Machine(m.heap + [p], m.spaces[i := Rebound(m.spaces[i], mo, |m.heap|)]);
    forall j | 0 <= j < |m.spaces|
      ensures InHeap(m', j)
      ensures View(m', j) == if j == i then View(m, i)[mo := p.cell] else View(m, j)
    {
      assert InHeap(m, j);
    }
  }

  lemma {:induction false} ForkDeep(m: Machine, op: Op)
    requires WellFormed(m) && op.ForkOp?
    ensures WellFormed(Step(m, op)) && Views(Step(m, op)) == DeepStep(Views(m), op)
  {
    StepWellFormed(m, op);
    var m' := Step(m, op);
    if op.space < |m.spaces| {
      forall j | 0 <= j < |m'.spaces|
        ensures InHeap(m', j) && View(m', j) == View(m, if j < |m.spaces| then j else op.space)
      {
        assert InHeap(m, if j < |m.spaces| then j else op.space);
      }
    }
  }

  lemma {:induction false} UnbindDeep(m: Machine, op: Op)
    requires WellFormed(m) && op.UnbindOp?
    ensures WellFormed(Step(m, op)) && Views(Step(m, op)) == DeepStep(Views(m), op)
  {
    StepWellFormed(m, op);
    var m' := Step(m, op);
    if op.space < |m.spaces| {
      forall j | 0 <= j < |m.spaces|
        ensures View(m', j) == if j == op.space then View(m, j) - {op.mo} else View(m, j)
      {
        assert InHeap(m, j);
      }
    }
  }

  lemma {:induction false} BindDeep(m: Machine, op: Op)
    requires WellFormed(m) && op.BindOp?
    ensures WellFormed(Step(m, op)) && Views(Step(m, op)) == DeepStep(Views(m), op)
  {
    hide Rebound;
    if op.space < |m.spaces| {
      NewPlace(m, op.space, op.mo, Place(m.spaces[op.space].key, op.cell));
    }
  }

  lemma {:induction false} RefusedDeep(m: Machine, op: Op)
    requires WellFormed(m) && op.WriteOp? && !Writes(m, op)
    ensures Step(m, op) == m && DeepStep(Views(m), op) == Views(m)
  {
    if op.space < |m.spaces| {
      assert InHeap(m, op.space);
      assert Views(m)[op.space := Views(m)[op.space]] == Views(m);
    }
  }

  lemma {:induction false} CopyDeep(m: Machine, op: Op)
    requires WellFormed(m) && Writes(m, op) && m.heap[Written(m, op)].owner != m.spaces[op.space].key
    ensures WellFormed(Step(m, op)) && Views(Step(m, op)) == DeepStep(Views(m), op)
  {
    hide Rebound;
    var x := Written(m, op);
    NewPlace(m, op.space, op.mo, Place(m.spaces[op.space].key, Wrote(m.heap[x].cell, op.offset, op.value)));
  }

  /** What an object shows after a write in place: every binding of the place shows it. */
  function Shown(m: Machine, op: Op, j: nat, mo: nat): Cell
    requires WellFormed(m) && Writes(m, op) && j < |m.spaces| && InHeap(m, j) && mo in View(m, j)
  {
    if BoundAt(m, j, mo, Written(m, op)) then
      SameCell(m, op, j, mo);
      Wrote(View(m, j)[mo], op.offset, op.value)
    else View(m, j)[mo]
  }

  lemma {:induction false} InPlaceView(m: Machine, op: Op, j: nat)
    requires WellFormed(m) && Writes(m, op) && m.heap[Written(m, op)].owner == m.spaces[op.space].key && j < |m.spaces|
    ensures |Step(m, op).spaces| == |m.spaces| && InHeap(m, j) && InHeap(Step(m, op), j)
    ensures View(Step(m, op), j).Keys == View(m, j).Keys
    ensures forall mo :: mo in View(m, j) ==> View(Step(m, op), j)[mo] == Shown(m, op, j, mo)
  {
    assert InHeap(m, j) && InHeap(m, op.space);
  }

  lemma {:induction false} InPlaceShows(m: Machine, op: Op)
    requires WellFormed(m) && Shows(m, op) && WellFormed(Step(m, op))
    ensures Views(Step(m, op)) != DeepStep(Views(m), op)
  {
    hide Step, View, Stored;
    var x, i := Written(m, op), op.space;
    var j: nat, mo: nat :| BoundAt(m, j, mo, x) && !(j == i && mo == op.mo);
    InPlaceView(m, op, j);
    SameCell(m, op, j, mo);
    DeepElsewhere(m, op, j, mo);
    assert Views(Step(m, op))[j][mo].bytes[op.offset] == op.value;
  }

  /** The deep machine changes one object of one space. */
  lemma {:induction false} DeepElsewhere(m: Machine, op: Op, j: nat, mo: nat)
    requires WellFormed(m) && Writes(m, op) && j < |m.spaces| && InHeap(m, j) && mo in View(m, j)
    ensures |DeepStep(Views(m), op)| == |m.spaces| && mo in DeepStep(Views(m), op)[j]
    ensures DeepStep(Views(m), op)[j].Keys == View(m, j).Keys
    ensures DeepStep(Views(m), op)[j][mo] ==
      if j == op.space && mo == op.mo then Wrote(View(m, j)[mo], op.offset, op.value) else View(m, j)[mo]
  {
    assert InHeap(m, op.space);
    hide View;
    assert Views(m)[j] == View(m, j) && Views(m)[op.space] == View(m, op.space);
  }

  lemma {:induction false} DeepSame(m: Machine, op: Op, j: nat)
    requires WellFormed(m) && Writes(m, op) && j < |m.spaces| && InHeap(m, j)
    ensures |DeepStep(Views(m), op)| == |m.spaces| && DeepStep(Views(m), op)[j].Keys == View(m, j).Keys
  {
    assert InHeap(m, op.space);
    hide View;
    assert Views(m)[j] == View(m, j) && Views(m)[op.space] == View(m, op.space);
  }

  lemma {:induction false} InPlaceDeep(m: Machine, op: Op)
    requires WellFormed(m) && Writes(m, op) && m.heap[Written(m, op)].owner == m.spaces[op.space].key
    ensures WellFormed(Step(m, op)) && (Views(Step(m, op)) == DeepStep(Views(m), op) <==> !Shows(m, op))
  {
    StepWellFormed(m, op);
    hide Step, View, DeepStep;
    var m', deep := Step(m, op), DeepStep(Views(m), op);
    if Shows(m, op) {
      InPlaceShows(m, op);
    } else {
      DeepSame(m, op, op.space);
      InPlaceView(m, op, op.space);
      forall j | 0 <= j < |m.spaces|
        ensures InHeap(m', j) && View(m', j) == deep[j]
      {
        InPlaceSame(m, op, j);
      }
    }
  }

  lemma {:induction false} InPlaceSame(m: Machine, op: Op, j: nat)
    requires WellFormed(m) && Writes(m, op) && m.heap[Written(m, op)].owner == m.spaces[op.space].key && j < |m.spaces|
    requires !Shows(m, op)
    ensures j < |Step(m, op).spaces| && InHeap(Step(m, op), j)
    ensures |DeepStep(Views(m), op)| == |m.spaces| && View(Step(m, op), j) == DeepStep(Views(m), op)[j]
  {
    hide Step, View, DeepStep;
    InPlaceView(m, op, j);
    DeepSame(m, op, j);
    var view, deep := View(Step(m, op), j), DeepStep(Views(m), op)[j];
    forall mo | mo in View(m, j)
      ensures view[mo] == deep[mo]
    {
      DeepElsewhere(m, op, j, mo);
      if BoundAt(m, j, mo, Written(m, op)) {
        SameCell(m, op, j, mo);
      }
    }
  }

  lemma {:induction false} SameCell(m: Machine, op: Op, j: nat, mo: nat)
    requires WellFormed(m) && Writes(m, op) && BoundAt(m, j, mo, Written(m, op))
    ensures InHeap(m, j) && mo in View(m, j) && View(m, j)[mo] == m.heap[Written(m, op)].cell
    ensures op.offset < |m.heap[Written(m, op)].cell.bytes|
  {
    assert InHeap(m, j) && InHeap(m, op.space);
  }

  /** One operation does what it does where forks copy all memory, exactly unless it writes another value into a place
      that its own space owns and that is bound elsewhere too. */
  lemma {:induction false} StepExact(m: Machine, op: Op)
    requires WellFormed(m)
    ensures WellFormed(Step(m, op)) && (Views(Step(m, op)) == DeepStep(Views(m), op) <==> !Shows(m, op))
  {
    hide Step, DeepStep;
    match op
    case ForkOp(_) => ForkDeep(m, op);
    case BindOp(_, _, _) => BindDeep(m, op);
    case UnbindOp(_, _) => UnbindDeep(m, op);
    case WriteOp(_, _, _, _) =>
      if !Writes(m, op) {
        RefusedDeep(m, op);
      } else if m.heap[Written(m, op)].owner == m.spaces[op.space].key {
        InPlaceDeep(m, op);
      } else {
        CopyDeep(m, op);
      }
  }

  /** A run agrees with the copying machine at every point exactly when no operation of it shows elsewhere. */
  lemma {:induction false} RunExact(ops: seq<Op>)
    ensures (forall i :: 0 <= i <= |ops| ==> Views(Run(ops[..i])) == DeepRun(ops[..i]))
       <==> (forall i :: 0 <= i < |ops| ==> !Shows(Run(ops[..i]), ops[i]))
  {
    hide Step, DeepStep, Shows, Views, Run, DeepRun;
    if forall i :: 0 <= i <= |ops| ==> Views(Run(ops[..i])) == DeepRun(ops[..i]) {
      forall i | 0 <= i < |ops|
        ensures !Shows(Run(ops[..i]), ops[i])
      {
        RunNext(ops, i);
        assert Views(Run(ops[..i + 1])) == DeepRun(ops[..i + 1]);
      }
    }
    if forall i :: 0 <= i < |ops| ==> !Shows(Run(ops[..i]), ops[i]) {
      for i := 0 to |ops| + 1
        invariant forall j :: 0 <= j < i ==> Views(Run(ops[..j])) == DeepRun(ops[..j])
      {
        if i == 0 {
          StartViews();
          assert ops[..0] == [];
        } else {
          RunNext(ops, i - 1);
        }
      }
    }
  }

  lemma {:induction false} RunNext(ops: seq<Op>, i: nat)
    requires i < |ops| && Views(Run(ops[..i])) == DeepRun(ops[..i])
    ensures Views(Run(ops[..i + 1])) == DeepRun(ops[..i + 1]) <==> !Shows(Run(ops[..i]), ops[i])
  {
    hide Step, DeepStep, Shows, Views;
    assert ops[..i + 1][..i] == ops[..i];
    StepExact(Run(ops[..i]), ops[i]);
  }

  // --- Ownership -----------------------------------------------------------------------------------------

  /** The owner of a place is at most the key of any space that binds it. */
  predicate Bounded(m: Machine, i: nat)
    requires i < |m.spaces| && InHeap(m, i)
  {
    forall mo :: mo in m.spaces[i].objects ==> m.heap[m.spaces[i].objects[mo]].owner <= m.spaces[i].key
  }

  /** A space binds a place once; if two spaces bind it, its owner is strictly below both keys. */
  ghost predicate Apart(m: Machine, i: nat, j: nat)
    requires i < |m.spaces| && j < |m.spaces| && InHeap(m, i) && InHeap(m, j)
  {
    forall mo, mo' | mo in m.spaces[i].objects && mo' in m.spaces[j].objects ::
      m.spaces[i].objects[mo] == m.spaces[j].objects[mo'] ==>
        if i == j then mo == mo'
        else m.heap[m.spaces[i].objects[mo]].owner < m.spaces[i].key && m.heap[m.spaces[i].objects[mo]].owner < m.spaces[j].key
  }

  ghost predicate Owned(m: Machine)
    requires WellFormed(m)
  {
    && (forall i :: 0 <= i < |m.spaces| ==> InHeap(m, i) && Bounded(m, i))
    && (forall i, j :: 0 <= i < |m.spaces| && 0 <= j < |m.spaces| ==> InHeap(m, i) && InHeap(m, j) && Apart(m, i, j))
  }

  /** With owners kept below the keys of sharers, no write shows elsewhere. */
  lemma {:induction false} OwnedHides(m: Machine, op: Op)
    requires WellFormed(m) && Owned(m)
    ensures !Shows(m, op)
  {
    if Writes(m, op) && m.heap[Written(m, op)].owner == m.spaces[op.space].key {
      forall j: nat, mo: nat | BoundAt(m, j, mo, Written(m, op))
        ensures j == op.space && mo == op.mo
      {
        assert Apart(m, op.space, j);
      }
    }
  }

  /** The operation does not take a key past its last value. */
  predicate Fits(m: Machine, op: Op)
  {
    op.ForkOp? && op.space < |m.spaces| ==> m.spaces[op.space].key + 1 < W32
  }

  ghost predicate OwnedAt(m: Machine, i: nat, j: nat)
  {
    i < |m.spaces| && j < |m.spaces| && InHeap(m, i) && InHeap(m, j) && Bounded(m, i) && Apart(m, i, j)
  }

  lemma {:induction false} OwnedPairs(m: Machine)
    requires WellFormed(m)
    ensures Owned(m) <==> forall i, j :: 0 <= i < |m.spaces| && 0 <= j < |m.spaces| ==> OwnedAt(m, i, j)
  {
    hide Bounded, Apart, InHeap;
    if forall i, j :: 0 <= i < |m.spaces| && 0 <= j < |m.spaces| ==> OwnedAt(m, i, j) {
      forall i, j | 0 <= i < |m.spaces| && 0 <= j < |m.spaces|
        ensures InHeap(m, i) && InHeap(m, j) && Bounded(m, i) && Apart(m, i, j)
      {
        assert OwnedAt(m, i, j) && OwnedAt(m, j, i);
      }
      forall i | 0 <= i < |m.spaces|
        ensures InHeap(m, i) && Bounded(m, i)
      {
        assert OwnedAt(m, i, i);
      }
    }
  }

  /** A place bound nowhere yet, owned by the space that binds it. */
  lemma {:induction false} NewPlaceOwned(m: Machine, k: nat, mo: nat, p: Place, i: nat, j: nat)
    requires k < |m.spaces| && p.owner == m.spaces[k].key && OwnedAt(m, i, j)
    ensures OwnedAt(Machine(m.heap + [p], m.spaces[k := Rebound(m.spaces[k], mo, |m.heap|)]), i, j)
  {
  }

  /** After a fork with a larger key both copies own nothing. */
  lemma {:induction false} ForkOwned(m: Machine, k: nat, i: nat, j: nat)
    requires k < |m.spaces| && m.spaces[k].key + 1 < W32 && i <= |m.spaces| && j <= |m.spaces|
    requires var p, q := if i < |m.spaces| then i else k, if j < |m.spaces| then j else k; OwnedAt(m, p, q)
    ensures var fork := Space((m.spaces[k].key + 1) % W32, m.spaces[k].objects);
      OwnedAt(m.(spaces := m.spaces[k := fork] + [fork]), i, j)
  {
    hide OwnedAt;
    var key := m.spaces[k].key;
    QuotientIs(key + 1, W32, 0, key + 1);
    var fork := Space(key + 1, m.spaces[k].objects);
    var p, q := if i < |m.spaces| then i else k, if j < |m.spaces| then j else k;
    RaisedOwned(m, p, q, m.(spaces := m.spaces[k := fork] + [fork]), i, j);
  }

  /** Two spaces with the places of `p` and `q` and keys no smaller, larger ones if they are copies of one space. */
  lemma {:induction false} RaisedOwned(m: Machine, p: nat, q: nat, m': Machine, i: nat, j: nat)
    requires OwnedAt(m, p, q) && m'.heap == m.heap && i < |m'.spaces| && j < |m'.spaces| && (p != q ==> i != j)
    requires m'.spaces[i].objects == m.spaces[p].objects && m'.spaces[j].objects == m.spaces[q].objects
    requires m.spaces[p].key <= m'.spaces[i].key && m.spaces[q].key <= m'.spaces[j].key
    requires p == q && i != j ==> m.spaces[p].key < m'.spaces[i].key && m.spaces[p].key < m'.spaces[j].key
    ensures OwnedAt(m', i, j)
  {
    assert InHeap(m', i) && InHeap(m', j) && Bounded(m', i);
  }

  lemma {:induction false} UnbindOwned(m: Machine, k: nat, mo: nat, i: nat, j: nat)
    requires k < |m.spaces| && OwnedAt(m, i, j)
    ensures OwnedAt(m.(spaces := m.spaces[k := Space(m.spaces[k].key, m.spaces[k].objects - {mo})]), i, j)
  {
  }

  lemma {:induction false} CellOwned(m: Machine, x: nat, cell: Cell, i: nat, j: nat)
    requires x < |m.heap| && OwnedAt(m, i, j)
    ensures OwnedAt(m.(heap := m.heap[x := Place(m.heap[x].owner, cell)]), i, j)
  {
  }

  lemma {:induction false} OwnedStep(m: Machine, op: Op)
    requires WellFormed(m) && Owned(m) && Fits(m, op)
    ensures WellFormed(Step(m, op)) && Owned(Step(m, op))
  {
    StepWellFormed(m, op);
    var m' := Step(m, op);
    OwnedPairs(m);
    OwnedPairs(m');
    hide Owned, OwnedAt, InHeap, Step;
    forall i, j | 0 <= i < |m'.spaces| && 0 <= j < |m'.spaces|
      ensures OwnedAt(m', i, j)
    {
      OwnedStepAt(m, op, i, j);
    }
  }

  lemma {:induction false} OwnedStepAt(m: Machine, op: Op, i: nat, j: nat)
    requires WellFormed(m) && Fits(m, op) && i < |Step(m, op).spaces| && j < |Step(m, op).spaces|
    requires forall p, q :: 0 <= p < |m.spaces| && 0 <= q < |m.spaces| ==> OwnedAt(m, p, q)
    ensures OwnedAt(Step(m, op), i, j)
  {
    hide OwnedAt, InHeap, Rebound, Wrote, View;
    if op.space < |m.spaces| {
      var k := op.space;
      if op.ForkOp? {
        ForkOwned(m, k, i, j);
      } else if op.BindOp? {
        NewPlaceOwned(m, k, op.mo, Place(m.spaces[k].key, op.cell), i, j);
      } else if op.UnbindOp? {
        UnbindOwned(m, k, op.mo, i, j);
      } else if Writes(m, op) {
        WriteOwned(m, op, i, j);
      }
    }
  }

  lemma {:induction false} WriteOwned(m: Machine, op: Op, i: nat, j: nat)
    requires WellFormed(m) && Writes(m, op) && OwnedAt(m, i, j)
    ensures OwnedAt(Step(m, op), i, j)
  {
    hide OwnedAt, InHeap, Rebound, View;
    var x, k := Written(m, op), op.space;
    assert op.offset < |m.heap[x].cell.bytes| by { SameCell(m, op, k, op.mo); }
    var cell := Wrote(m.heap[x].cell, op.offset, op.value);
    if m.heap[x].owner == m.spaces[k].key {
      CellOwned(m, x, cell, i, j);
    } else {
      NewPlaceOwned(m, k, op.mo, Place(m.spaces[k].key, cell), i, j);
    }
  }

  // --- Whole runs ----------------------------------------------------------------------------------------------

  /** The keys if they were unbounded: a fork of space `i` leaves `i` and its child at the next key. */
  function Keys(ops: seq<Op>): (keys: seq<nat>)
  {
    if ops == [] then [1] else NextKeys(Keys(ops[..|ops| - 1]), ops[|ops| - 1])
  }

  function NextKeys(keys: seq<nat>, op: Op): seq<nat>
  {
    if op.ForkOp? && op.space < |keys| then keys[op.space := keys[op.space] + 1] + [keys[op.space] + 1] else keys
  }

  predicate NoWrap(ops: seq<Op>)
  {
    forall i :: 0 <= i < |Keys(ops)| ==> Keys(ops)[i] < W32
  }

  /** Keys never go down, so a run without a wrap has none on the way. */
  lemma {:induction false} NoWrapFront(ops: seq<Op>)
    requires ops != [] && NoWrap(ops)
    ensures NoWrap(ops[..|ops| - 1])
  {
    var before := Keys(ops[..|ops| - 1]);
    forall i | 0 <= i < |before|
      ensures before[i] < W32
    {
      assert before[i] <= Keys(ops)[i];
    }
  }

  lemma {:induction false} KeysAre(ops: seq<Op>)
    requires NoWrap(ops)
    ensures |Keys(ops)| == |Run(ops).spaces| && forall i :: 0 <= i < |Keys(ops)| ==> Run(ops).spaces[i].key == Keys(ops)[i]
    ensures ops != [] ==> Fits(Run(ops[..|ops| - 1]), ops[|ops| - 1])
  {
    if ops != [] {
      var front, op := ops[..|ops| - 1], ops[|ops| - 1];
      NoWrapFront(ops);
      KeysAre(front);
      KeysNext(Run(front), Keys(front), op);
      if op.ForkOp? && op.space < |Keys(front)| {
        assert Keys(ops)[op.space] < W32;
      }
    }
  }

  lemma {:induction false} KeysNext(m: Machine, keys: seq<nat>, op: Op)
    requires WellFormed(m) && |keys| == |m.spaces| && forall i :: 0 <= i < |keys| ==> m.spaces[i].key == keys[i]
    requires forall i :: 0 <= i < |NextKeys(keys, op)| ==> NextKeys(keys, op)[i] < W32
    ensures |Step(m, op).spaces| == |NextKeys(keys, op)|
    ensures forall i :: 0 <= i < |Step(m, op).spaces| ==> Step(m, op).spaces[i].key == NextKeys(keys, op)[i]
  {
    hide Wrote;
    if op.ForkOp? && op.space < |keys| {
      var k := keys[op.space];
      assert NextKeys(keys, op)[op.space] == k + 1;
      QuotientIs(k + 1, W32, 0, k + 1);
    }
  }

  lemma {:induction false} OwnedRun(ops: seq<Op>)
    requires NoWrap(ops)
    ensures Owned(Run(ops))
  {
    hide Owned, Step;
    if ops == [] {
      OwnedStart();
    } else {
      NoWrapFront(ops);
      OwnedRun(ops[..|ops| - 1]);
      KeysAre(ops);
      OwnedStep(Run(ops[..|ops| - 1]), ops[|ops| - 1]);
    }
  }

  lemma {:induction false} OwnedStart()
    ensures Owned(START)
  {
  }

  /** As long as no key wraps, every space sees at every point what it would see if forks copied all memory. */
  lemma {:induction false} RunIsDeep(ops: seq<Op>)
    requires NoWrap(ops)
    ensures Views(Run(ops)) == DeepRun(ops)
  {
    hide Owned, Step, DeepStep, Shows;
    if ops == [] {
      StartViews();
    } else {
      var front := ops[..|ops| - 1];
      NoWrapFront(ops);
      RunIsDeep(front);
      OwnedRun(front);
      OwnedHides(Run(front), ops[|ops| - 1]);
      StepExact(Run(front), ops[|ops| - 1]);
    }
  }

  lemma {:induction false} StartViews()
    ensures Views(Run([])) == DeepRun([])
  {
  }

  // --- After the wrap ------------------------------------------------------------------------------------------------

  const CELL: Cell := Cell([0], false)

  /** An object is bound, its space forked `n` times, and the object written. */
  function Forked(n: nat): seq<Op> { [BindOp(0, 7, CELL)] + seq(n, i => ForkOp(0)) }
  function ForkedThenWritten(n: nat): seq<Op> { Forked(n) + [WriteOp(0, 7, 0, 1)] }

  /** One object in one place, bound by `n + 1` spaces, the first forked `n` times. */
  ghost predicate Fleet(m: Machine, n: nat)
  {
    && m.heap == [Place(1, CELL)] && |m.spaces| == n + 1 && m.spaces[0].key == (1 + n) % W32
    && forall i :: 0 <= i <= n ==> m.spaces[i].objects == map[7 := 0]
  }

  lemma {:induction false} FleetForks(m: Machine, n: nat)
    requires WellFormed(m) && Fleet(m, n)
    ensures Fleet(Step(m, ForkOp(0)), n + 1)
  {
    NextKey(n);
  }

  lemma {:induction false} NextKey(n: nat)
    ensures ((1 + n) % W32 + 1) % W32 == (2 + n) % W32
  {
  }

  lemma {:induction false} ForkedRun(n: nat)
    ensures Fleet(Run(Forked(n)), n) && DeepRun(Forked(n)) == Views(Run(Forked(n)))
  {
    var ops := Forked(n);
    if n == 0 {
      assert ops == [BindOp(0, 7, CELL)];
      FirstBind(ops);
    } else {
      assert ops[..|ops| - 1] == Forked(n - 1) && ops[|ops| - 1] == ForkOp(0);
      hide Step, DeepStep, Fleet, Views, Forked;
      ForkedRun(n - 1);
      FleetForks(Run(Forked(n - 1)), n - 1);
      ForkDeep(Run(Forked(n - 1)), ForkOp(0));
    }
  }

  lemma {:induction false} FirstBind(ops: seq<Op>)
    requires ops == [BindOp(0, 7, CELL)]
    ensures Run(ops) == Machine([Place(1, CELL)], [Space(1, map[7 := 0])]) && DeepRun(ops) == Views(Run(ops))
  {
    assert ops[..0] == [];
    assert Run(ops[..0]) == START && DeepRun(ops[..0]) == [map[]];
    StartViews();
    BindDeep(START, ops[0]);
    var objects: map<nat, nat> := map[][7 := 0];
    assert objects == map[7 := 0];
    assert Run(ops).spaces[0].objects == map[7 := 0];
  }

  /** In such a run the write shows in the other spaces exactly when the key has come round to the owner again: after
      every multiple of 2^32 forks. */
  lemma {:induction false} WrapShows(n: nat)
    ensures Views(Run(ForkedThenWritten(n))) == DeepRun(ForkedThenWritten(n)) <==> n == 0 || n % W32 != 0
  {
    var ops, op, m := ForkedThenWritten(n), WriteOp(0, 7, 0, 1), Run(Forked(n));
    assert ops[..|ops| - 1] == Forked(n);
    ForkedRun(n);
    assert InHeap(m, 0);
    assert Writes(m, op) && Written(m, op) == 0;
    if n > 0 {
      assert BoundAt(m, 1, 7, 0);
    }
    RoundAgain(n);
    hide Step, DeepStep;
    StepExact(m, op);
  }

  lemma {:induction false} RoundAgain(n: nat)
    ensures (1 + n) % W32 == 1 <==> n % W32 == 0
  {
  }
}
