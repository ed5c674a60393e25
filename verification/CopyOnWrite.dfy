/** Copy-on-write across forked address spaces (AddressSpace.h and the bind, unbind and write operations of
    AddressSpace.cpp), object by object; a run of the objects is a run of the machine on values. */
module CopyOnWrite {
  import opened CowMachine
  import opened Words

  class ObjectState {
    var copyOnWriteOwner: nat
    var cell: Cell

    constructor (cell: Cell)
      ensures copyOnWriteOwner == 0 && this.cell == cell
    {
      copyOnWriteOwner := 0;
      this.cell := cell;
    }
  }

  class AddressSpace {
    var cowKey: nat
    var objects: map<nat, ObjectState>

    constructor ()
      ensures cowKey == 1 && objects == map[]
    {
      cowKey := 1;
      objects := map[];
    }

    constructor Copy(key: nat, objects: map<nat, ObjectState>)
      ensures cowKey == key && this.objects == objects
    {
      cowKey := key;
      this.objects := objects;
    }

    /** The memory this space sees. */
    function See(): Memory
      reads this, objects.Values
    {
      map m | m in objects :: objects[m].cell
    }

    /** The copy constructor that forks this space: it advances the key of both, in 32 bits. */
    method Fork() returns (t: AddressSpace)
      modifies this`cowKey
      ensures fresh(t) && cowKey == t.cowKey == (old(cowKey) + 1) % W32
      ensures t.objects == objects && t.See() == See() == old(See())
    {
      cowKey := (cowKey + 1) % W32;
      t := new AddressSpace.Copy(cowKey, objects);
    }

    /** bindObject: the object state must have no owner yet. */
    method BindObject(mo: nat, os: ObjectState)
      requires os.copyOnWriteOwner == 0
      modifies this`objects, os`copyOnWriteOwner
      ensures os.copyOnWriteOwner == cowKey && objects == old(objects)[mo := os]
      ensures See() == old(See())[mo := os.cell]
    {
      os.copyOnWriteOwner := cowKey;
      objects := objects[mo := os];
    }

    method UnbindObject(mo: nat)
      modifies this`objects
      ensures objects == old(objects) - {mo} && See() == old(See()) - {mo}
    {
      objects := objects - {mo};
    }

    /** getWriteable: the object itself if this space owns it, else a copy that it owns. */
    method GetWriteable(mo: nat, os: ObjectState) returns (n: ObjectState)
      requires mo in objects && objects[mo] == os && !os.cell.readOnly
      modifies this`objects
      ensures if old(os.copyOnWriteOwner) == cowKey then n == os else fresh(n)
      ensures n.copyOnWriteOwner == cowKey && n.cell == os.cell && objects == old(objects)[mo := n]
      ensures See() == old(See())
    {
      if cowKey == os.copyOnWriteOwner {
        return os;
      }
      n := new ObjectState(os.cell);
      BindObject(mo, n);
    }
  }

  // --- Whole runs --------------------------------------------------------------------------------------

  class Process {
    var spaces: seq<AddressSpace>
    ghost var heap: seq<ObjectState>

    ghost function All(): set<AddressSpace>
      reads this
    {
      set s | s in spaces
    }

    ghost function Objects(): set<ObjectState>
      reads this
    {
      set o | o in heap
    }

    /** Object `x` of the heap is place `x` of the machine. */
    ghost predicate Placed(m: Machine, x: nat)
      requires x < |heap| && x < |m.heap|
      reads this, heap
    {
      heap[x].copyOnWriteOwner == m.heap[x].owner && heap[x].cell == m.heap[x].cell
    }

    ghost predicate Spaced(m: Machine, i: nat)
      requires i < |spaces| && i < |m.spaces|
      reads this, spaces
    {
      && spaces[i].cowKey == m.spaces[i].key && spaces[i].objects.Keys == m.spaces[i].objects.Keys
      && forall mo :: mo in spaces[i].objects ==>
        m.spaces[i].objects[mo] < |heap| && spaces[i].objects[mo] == heap[m.spaces[i].objects[mo]]
    }

    /** The objects are those of the machine. */
    ghost predicate Represents(m: Machine)
      reads this, spaces, heap
    {
      && |spaces| == |m.spaces| && |heap| == |m.heap|
      && (forall i, j :: 0 <= i < j < |spaces| ==> spaces[i] != spaces[j])
      && (forall x, y :: 0 <= x < y < |heap| ==> heap[x] != heap[y])
      && (forall x :: 0 <= x < |heap| ==> Placed(m, x))
      && (forall i :: 0 <= i < |spaces| ==> Spaced(m, i))
    }

    constructor ()
      ensures Represents(START) && |spaces| == 1 && fresh(spaces[0]) && heap == []
    {
      var s := new AddressSpace();
      spaces := [s];
      heap := [];
    }

    /** One operation on one of the spaces. */
    method Step(op: Op, ghost m: Machine)
      requires WellFormed(m) && Represents(m)
      modifies this, All(), Objects()
      ensures Represents(CowMachine.Step(m, op))
      ensures fresh(All() - old(All())) && fresh(Objects() - old(Objects()))
    {
      hide CowMachine.Step;
      match op
      case ForkOp(_) => StepFork(op, m);
      case BindOp(_, _, _) => StepBind(op, m);
      case UnbindOp(_, _) => StepUnbind(op, m);
      case WriteOp(_, _, _, _) => StepWrite(op, m);
    }

    method StepFork(op: Op, ghost m: Machine)
      requires op.ForkOp? && WellFormed(m) && Represents(m)
      modifies this, All(), Objects()
      ensures Represents(CowMachine.Step(m, op))
      ensures heap == old(heap) && fresh(All() - old(All()))
    {
      if op.space >= |spaces| {
        return;
      }
      assert Spaced(m, op.space);
      var t := spaces[op.space].Fork();
      spaces := spaces + [t];
      ghost var m' := CowMachine.Step(m, op);
      forall i | 0 <= i < |spaces|
        ensures Spaced(m', i)
      {
        assert i < |m.spaces| ==> old(Spaced(m, i));
      }
      forall x | 0 <= x < |heap|
        ensures Placed(m', x)
      {
        assert old(Placed(m, x));
      }
    }

    method StepUnbind(op: Op, ghost m: Machine)
      requires op.UnbindOp? && WellFormed(m) && Represents(m)
      modifies this, All(), Objects()
      ensures Represents(CowMachine.Step(m, op)) && spaces == old(spaces) && heap == old(heap)
    {
      if op.space >= |spaces| {
        return;
      }
      spaces[op.space].UnbindObject(op.mo);
      ghost var m' := CowMachine.Step(m, op);
      forall i | 0 <= i < |spaces|
        ensures Spaced(m', i)
      {
        assert old(Spaced(m, i));
      }
      forall x | 0 <= x < |heap|
        ensures Placed(m', x)
      {
        assert old(Placed(m, x));
      }
    }

    method StepBind(op: Op, ghost m: Machine)
      requires op.BindOp? && WellFormed(m) && Represents(m)
      modifies this, All(), Objects()
      ensures Represents(CowMachine.Step(m, op)) && spaces == old(spaces)
      ensures fresh(Objects() - old(Objects()))
    {
      if op.space >= |spaces| {
        return;
      }
      var os := new ObjectState(op.cell);
      spaces[op.space].BindObject(op.mo, os);
      heap := heap + [os];
      ghost var m' := CowMachine.Step(m, op);
      forall i | 0 <= i < |spaces|
        ensures Spaced(m', i)
      {
        assert old(Spaced(m, i));
      }
      assert old(Spaced(m, op.space));
      forall x | 0 <= x < |heap|
        ensures Placed(m', x)
      {
        assert x < |m.heap| ==> old(Placed(m, x));
      }
    }

    /** A write: unbound or read-only objects and offsets outside the object are left alone, and any other write goes
        through getWriteable. */
    method StepWrite(op: Op, ghost m: Machine)
      requires op.WriteOp? && WellFormed(m) && Represents(m)
      modifies this, All(), Objects()
      ensures Represents(CowMachine.Step(m, op)) && spaces == old(spaces)
      ensures fresh(Objects() - old(Objects()))
    {
      hide CowMachine.Step, Obtained, Wrote;
      WriteStep(m, op);
      if op.space >= |spaces| {
        return;
      }
      var s := spaces[op.space];
      assert Spaced(m, op.space) && InHeap(m, op.space);
      assert op.mo in s.objects ==> Placed(m, m.spaces[op.space].objects[op.mo]);
      if op.mo !in s.objects || s.objects[op.mo].cell.readOnly || op.offset >= |s.objects[op.mo].cell.bytes| {
        return;
      }
      var n, x := Obtain(op.space, op.mo, m);
      Store(n, op.offset, op.value, x, Obtained(m, op.space, op.mo));
    }

    method Obtain(i: nat, mo: nat, ghost m: Machine) returns (n: ObjectState, ghost x: nat)
      requires WellFormed(m) && Represents(m) && i < |spaces| && mo in spaces[i].objects
      requires mo in m.spaces[i].objects && !View(m, i)[mo].readOnly
      modifies this, spaces[i]
      ensures Represents(Obtained(m, i, mo)) && spaces == old(spaces)
      ensures x == Obtained(m, i, mo).spaces[i].objects[mo] < |heap| && heap[x] == n
      ensures n.cell == old(spaces[i].objects[mo].cell) && fresh(Objects() - old(Objects()))
    {
      hide AddressSpace.See;
      assert Spaced(m, i) && InHeap(m, i);
      x := m.spaces[i].objects[mo];
      assert Placed(m, x);
      ghost var was := spaces[i].objects;
      n := spaces[i].GetWriteable(mo, spaces[i].objects[mo]);
      ghost var m' := Obtained(m, i, mo);
      if m.heap[x].owner == m.spaces[i].key {
        assert n == heap[x] && spaces[i].objects == was && m' == m;
      } else {
        x := |heap|;
        heap := heap + [n];
        forall j | 0 <= j < |spaces|
          ensures Spaced(m', j)
        {
          assert old(Spaced(m, j));
        }
        forall y | 0 <= y < |heap|
          ensures Placed(m', y)
        {
          assert y < |m.heap| ==> old(Placed(m, y));
        }
      }
    }

    method Store(n: ObjectState, offset: nat, value: int, ghost x: nat, ghost m: Machine)
      requires Represents(m) && x < |heap| && heap[x] == n && offset < |n.cell.bytes|
      modifies n
      ensures offset < |m.heap[x].cell.bytes| && Represents(Put(m, x, Wrote(m.heap[x].cell, offset, value)))
    {
      hide Wrote;
      assert Placed(m, x);
      n.cell := Wrote(n.cell, offset, value);
      ghost var m' := Put(m, x, Wrote(m.heap[x].cell, offset, value));
      forall j | 0 <= j < |spaces|
        ensures Spaced(m', j)
      {
        assert old(Spaced(m, j));
      }
      forall y | 0 <= y < |heap|
        ensures Placed(m', y)
      {
        assert old(Placed(m, y));
      }
    }

    function Views(): seq<Memory>
      reads this, spaces, set s, m | s in spaces && m in s.objects :: s.objects[m]
    {
      seq(|spaces|, i requires 0 <= i < |spaces|
                      reads this, spaces, set s, m | s in spaces && m in s.objects :: s.objects[m] => spaces[i].See())
    }

    lemma {:induction false} SameViews(m: Machine)
      requires WellFormed(m) && Represents(m)
      ensures Views() == CowMachine.Views(m)
    {
      forall i | 0 <= i < |spaces|
        ensures spaces[i].See() == View(m, i)
      {
        assert Spaced(m, i) && InHeap(m, i);
        assert forall mo :: mo in spaces[i].objects ==> Placed(m, m.spaces[i].objects[mo]);
      }
    }
  }

  /** Over every run of forks, binds, unbinds and writes the spaces see what the machine on values says; as long as no
      key wraps, that is what they would see if forks copied everything. */
  method Run(ops: seq<Op>) returns (views: seq<Memory>)
    ensures views == Views(CowMachine.Run(ops))
    ensures NoWrap(ops) ==> views == DeepRun(ops)
  {
    hide CowMachine.Step, DeepRun, CowMachine.Views;
    var p := new Process();
    assert ops[..0] == [];
    for i := 0 to |ops|
      invariant fresh(p) && fresh(p.All()) && fresh(p.Objects())
      invariant p.Represents(CowMachine.Run(ops[..i]))
    {
      p.Step(ops[i], CowMachine.Run(ops[..i]));
      assert ops[..i + 1][..i] == ops[..i];
    }
    assert ops[..|ops|] == ops;
    p.SameViews(CowMachine.Run(ops));
    views := p.Views();
    if NoWrap(ops) {
      RunIsDeep(ops);
    }
  }
}
