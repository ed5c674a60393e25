# Verified models of the KLEE cache analysis and its cipher benchmarks

The repository is a symbolic-execution engine extended with a cache model, together with the
cipher programs it analyses. This project models the parts of both that carry the hard
reasoning, and proves what they promise for all inputs. `dafny verify dfyconfig.toml` checks
every file.

- **Authenticated encryption** (`Words`, `LittleEndian`, `Poly1305*`, `ChaCha*`, `Aead`).
  Words are natural numbers with wrap-around written out; the bitwise operators are recursive
  functions with lemmas that connect them to arithmetic. Poly1305 on five 26-bit limbs is proved
  against the Horner sum of RFC 8439, ChaCha against a keystream indexed by position, and the
  two together over every chunking of data and associated data.
- **The cache analysis** (`CacheLines`, `CacheUtil`, `Lru`, `CacheTrace`, `CacheRepeats`,
  `ConstantCache`, `ConstantShortcut`, `CacheState`, `ConstantTargets`). Expressions are modelled by what
  they denote under an assignment of the symbolic addresses. The formula built access by access is compared with a step-by-step
  LRU cache.
- **Memory** (`PointerResolution`, `CowMachine`, `CopyOnWrite`). Pointers are sets of feasible addresses and the
  solver is an oracle that may fail at any query. Copy-on-write is a machine on values, compared
  with one that copies all memory at each fork, and classes whose runs are runs of that machine.
- **Block ciphers** (`Xor`, `ByteColumns`, `Aes*`, `Camellia*`, `Feistel`, `Des*`, `Seed*`). Words are bit
  vectors, tables are parameters. AES tables meet the identities in the header comment of `aes.c`; the tables of
  Camellia and SEED repeat their S-boxes as the standards say.
- **SHA-512 and OCB3** (`Sha512`, `BigEndian`, `Ocb3`).
- **Call paths and test files** (`CallPathTree`, `CallPath`, `KTestFormat`, `KTestFile`, with `Options`).

Code that updates state in place is a class or a method over arrays, proved against a function of
the old state; that function is then connected to an independent definition by lemmas.

## What the models show

Seven promises hold only under a condition, which is proved exact, with an input that fails.

- The formula of the cache analysis ignores an expression it has seen before. Compare the first
  occurrences of the trace with the last ones, after the target's own last use. For the configured
  number of ways the formula agrees with the cache if, wherever at least that many expressions
  follow one of them in either sequence, they all follow it in the other
  (`CacheRepeats.ExactIfHarmless`); on symbolic traces it agrees only then
  (`CacheRepeats.ExactOnlyIfHarmless`). An expression used again after as many others as there are
  ways breaks it, and after fewer does not (`CacheRepeats.UsedAgain`). One set with one way, and more
  ways than there are lines to fill them, are cases of their own in the condition.
- For a constant target the code records constant accesses the wrong way round. After constants alone the
  formula is then 0 or 1, and agrees with the cache exactly under `CacheState.ConstantExact`; after any trace
  it is what `ConstantTargets.ConstantTargetCounts` says.
- The constant-eviction shortcut drops a target as evicted once constants have touched `ways` lines of
  every set. It is right under an assignment exactly when that many other lines came since the target's
  last reload (`ConstantShortcut.Shortcut`). For every symbolic target it is wrong under the assignment
  that gives it the last constant's address, and for a constant target it is wrong when the target's
  own line is the last to be counted (`ConstantShortcut.ConstantShortcutWrong`).
- Camellia's rotations are macros without outer parentheses. In the key set-up six of them group as
  `(a ^ d << 1) | d >> 31`: the code runs the cipher structure of RFC 3713 on its subkeys, for all
  round functions, exactly when no rotated bit meets a set low bit (`CamelliaExact.TailExact`). In
  the round function the rotation groups with the word after it: the code's round function is the
  proper one exactly on inputs where two words share no bit, and the ciphertext is the proper one for
  blocks that meet only such inputs (`CamelliaRound.RoundExact`, `CamelliaRound.CleanText`,
  `CamelliaRound.CipherExact`). With the tables of the code some inputs are not of this kind
  (`CamelliaRound.ShippedDiffers`). Decryption undoes encryption in any case.
- Copy-on-write keys are 32 bits wide. Forks show nothing to each other as long as no lineage of forks
  takes a key to 2^32 (`CowMachine.RunIsDeep`); 2^32 forks of one space make a write show in another
  (`CowMachine.WrapShows`).
- `DES_encrypt1` on 64-bit words is undone by its inverse exactly on words below 2^32
  (`Des.RoundTrip`).
- The comment at `klee/lib/Core/AddressSpace.h:90-95` says that `resolve` returns no more than
  `maxResolutions` objects when it is not zero. The code does not stop at one: it keeps to the limit
  exactly when at most one object is reachable, solver failures and time limits apart (`PointerResolution.Resolve`,
  `PointerResolution.LimitOfOneExceeded`).

## Model

| member | source | states |
|---|---|---|
| `Poly1305Arithmetic.BlockLimbsValue` | benchmarks_original/tomcrypt/chacha20poly1305_memory.c:134-138 | the five overlapping loads of a block, masked and with the high bit OR-ed in, hold exactly the block's number plus the high bit, each limb in range |
| `Poly1305Arithmetic.Mask26IsAnd` | benchmarks_original/tomcrypt/chacha20poly1305_memory.c:134-137 | reduction modulo 2^26 is the mask the code writes |
| `Poly1305Arithmetic.AddLimbsExact` | benchmarks_original/tomcrypt/chacha20poly1305_memory.c:134-138 | adding a block to an accumulator within bounds cannot wrap a limb |
| `Poly1305Arithmetic.MultiplyFits` | benchmarks_original/tomcrypt/chacha20poly1305_memory.c:121-145 | for every clamped r no product, sum of five products or `s = 5 * r` wraps, so 64-bit columns are the exact ones |
| `Poly1305Arithmetic.MultiplyValue` | benchmarks_original/tomcrypt/chacha20poly1305_memory.c:141-145 | the five columns are h * r modulo 2^130 - 5, with the exact multiple of the prime dropped |
| `Poly1305Arithmetic.CarryFits` | benchmarks_original/tomcrypt/chacha20poly1305_memory.c:148-154 | the carry chain, its truncating casts and `c * 5` never lose a bit and re-establish the limb bounds |
| `Poly1305Arithmetic.CarryValue` | benchmarks_original/tomcrypt/chacha20poly1305_memory.c:148-154 | the carry chain keeps the value modulo 2^130 - 5 |
| `Poly1305Arithmetic.BlockStepCorrect` | benchmarks_original/tomcrypt/chacha20poly1305_memory.c:132-158 | one block on machine words keeps the limb bounds and is (h + block) * r modulo 2^130 - 5 |
| `Poly1305Final.FullCarryCorrect` | benchmarks_original/tomcrypt/chacha20poly1305_memory.c:239-251 | the last carry pass leaves every limb below 2^26 and the value modulo the prime unchanged |
| `Poly1305Final.MinusPCorrect` | benchmarks_original/tomcrypt/chacha20poly1305_memory.c:254-258 | h + -p has its sign bit set exactly when h is below the prime, and otherwise is h - p |
| `Poly1305Final.FreezeCorrect` | benchmarks_original/tomcrypt/chacha20poly1305_memory.c:239-272 | carry, subtraction and masked choice give the unique representative below 2^130 - 5 |
| `Poly1305Final.PackCorrect` | benchmarks_original/tomcrypt/chacha20poly1305_memory.c:275-278 | packing limbs into words by OR loses and merges no bit: the words are the value modulo 2^128 |
| `Poly1305Final.AddPadCorrect` | benchmarks_original/tomcrypt/chacha20poly1305_memory.c:281-284 | adding the pad word by word with carries is addition modulo 2^128 |
| `Poly1305Final.StoreAllCorrect` | benchmarks_original/tomcrypt/chacha20poly1305_memory.c:286-289 | the sixteen bytes stored are the words little-endian |
| `Poly1305Final.TagBytesCorrect` | benchmarks_original/tomcrypt/chacha20poly1305_memory.c:239-289 | the tag is (h mod p + pad) mod 2^128, little-endian |
| `Poly1305Spec.AccumulateConcat` | benchmarks_original/tomcrypt/chacha20poly1305_memory.c:105-165 | the Horner sum of section 2.5.1 of RFC 8439 composes over whole blocks |
| `Poly1305.BlocksConcat` | benchmarks_original/tomcrypt/chacha20poly1305_memory.c:105-165 | the block loop composes over whole blocks |
| `Poly1305.BlocksCorrect` | benchmarks_original/tomcrypt/chacha20poly1305_memory.c:105-165 | any number of blocks through the loop is the Horner evaluation of section 2.5.1 of RFC 8439, bounds kept throughout |
| `Poly1305.ClampCorrect` | benchmarks_original/tomcrypt/chacha20poly1305_memory.c:547-552 | the five masked loads of r are the clamped key half, within the limb bounds the loop needs |
| `Poly1305.PadCorrect` | benchmarks_original/tomcrypt/chacha20poly1305_memory.c:561-565 | the pad words are the second key half |
| `Poly1305.TagCorrect` | benchmarks_original/tomcrypt/chacha20poly1305_memory.c:231-289 | from any state that represents a message, finishing the partial block gives that message's tag |
| `Poly1305.State.Init` | benchmarks_original/tomcrypt/chacha20poly1305_memory.c:541-570 | a state with no message, r clamped and the pad loaded |
| `Poly1305.State.Block` | benchmarks_original/tomcrypt/chacha20poly1305_memory.c:105-165 | the block loop in place, with or without the high bit |
| `Poly1305.State.Process` | benchmarks_original/tomcrypt/chacha20poly1305_memory.c:174-209 | any bytes, through the partial buffer: the state represents the old message followed by them |
| `Poly1305.State.Done` | benchmarks_original/tomcrypt/chacha20poly1305_memory.c:218-309 | the tag of everything absorbed, and the state wiped |
| `Poly1305.MacOfChunks` | benchmarks_original/tomcrypt/chacha20poly1305_memory.c:174-309 | for every splitting of a message into calls, the tag is that of section 2.5 of RFC 8439 on the whole message |
| `ChaChaBlock.QuarterInPlace` | benchmarks_original/tomcrypt/chacha20poly1305_memory.c:361-365 | the quarter round on four distinct words in place, all others kept |
| `ChaChaBlock.DoubleRoundCorrect` | benchmarks_original/tomcrypt/chacha20poly1305_memory.c:372-381 | the eight quarter rounds are a column round and, on rotated rows, the diagonal round of section 2.3 of RFC 8439 |
| `ChaChaBlock.Block` | benchmarks_original/tomcrypt/chacha20poly1305_memory.c:367-386 | the block function: rounds two at a time, input added, words stored little-endian |
| `ChaChaBlock.RolRotates` | benchmarks_original/tomcrypt/chacha20poly1305_memory.c:356 | the macro moves the word round to the left: it is multiplication by 2^k modulo 2^32 - 1 |
| `ChaChaBlock.BlockWord` | benchmarks_original/tomcrypt/chacha20poly1305_memory.c:382-385 | each word of the block is the word of the last state plus the word of the input, little-endian |
| `ChaChaBlock.RoundsRepeat` | benchmarks_original/tomcrypt/chacha20poly1305_memory.c:372-381 | 20 rounds are ten double rounds, for every even number of rounds |
| `ChaChaExample.QuarterExample` | benchmarks_original/tomcrypt/chacha20poly1305_memory.c:361-365 | the quarter round at the values of section 2.1.1 of RFC 8439 |
| `ChaCha.KeyWords` | benchmarks_original/tomcrypt/chacha20poly1305_memory.c:323-354 | for a 32-byte key the first three rows are the constants of section 2.3 of RFC 8439 and the key little-endian |
| `ChaCha.ShortKeyWords` | benchmarks_original/tomcrypt/chacha20poly1305_memory.c:323-354 | a 16-byte key fills both key rows, with the other constants |
| `ChaCha.CounterWords` | benchmarks_original/tomcrypt/chacha20poly1305_memory.c:590-604 | the last row is the counter and the twelve bytes little-endian |
| `ChaCha.LongCounterWords` | benchmarks_original/tomcrypt/chacha20poly1305_memory.c:614-628 | the last row is the 64-bit counter, low word first, and the eight bytes little-endian |
| `ChaCha.XorStreamConcat` | benchmarks_original/tomcrypt/chacha20poly1305_memory.c:396-437 | the keystream is indexed by position: data in two parts is data in one |
| `ChaCha.XorStreamTwice` | benchmarks_original/tomcrypt/chacha20poly1305_memory.c:396-437 | the keystream applied twice is the identity |
| `ChaCha.State.Setup` | benchmarks_original/tomcrypt/chacha20poly1305_memory.c:323-354 | the constant and key rows for 16- and 32-byte keys with the counter row kept, and the round count (0 means 20) |
| `ChaCha.State.IvCtr32` | benchmarks_original/tomcrypt/chacha20poly1305_memory.c:590-604 | a 32-bit counter row; the stream starts at position 0 |
| `ChaCha.State.IvCtr64` | benchmarks_original/tomcrypt/chacha20poly1305_memory.c:614-628 | a 64-bit counter row; the stream starts at position 0 |
| `ChaCha.State.Increment` | benchmarks_original/tomcrypt/chacha20poly1305_memory.c:418-425 | the counter of either width moves on by one, and the wrap is reported exactly when it happens |
| `ChaCha.NeededTotal` | benchmarks_original/tomcrypt/chacha20poly1305_memory.c:396-437 | the blocks a call still needs depend only on the position and the length |
| `ChaCha.State.Crypt` | benchmarks_original/tomcrypt/chacha20poly1305_memory.c:396-437 | the output is the input XOR the keystream at the current position; overflow is reported exactly when the blocks used reach the end of the counter, which is then back at 0 with the written bytes correct, and otherwise the kept tail of the last block stays the unused keystream |
| `ChaCha.CryptChunks` | benchmarks_original/tomcrypt/chacha20poly1305_memory.c:396-437 | over every sequence of calls the concatenated output is the concatenated input XOR the keystream, and it fails exactly when the total needs too many blocks |
| `ChaCha.RestartRepeats` | benchmarks_original/tomcrypt/chacha20poly1305_memory.c:418-425 | the stream from counter 0 has, from the old counter on, the old blocks |
| `ChaCha.CryptOnwards` | benchmarks_original/tomcrypt/chacha20poly1305_memory.c:396-437 | a call after a reported overflow uses the keystream from counter 0 on |
| `Aead.Session.SetIv` | benchmarks_original/tomcrypt/chacha20poly1305_memory.c:652-693 | the one-time key from block 0 with counter 0, the data stream from counter 1, for both counter layouts (section 2.6 of RFC 8439) |
| `Aead.Session.AddAad` | benchmarks_original/tomcrypt/chacha20poly1305_memory.c:521-532 | associated data is authenticated until data begins, and refused after |
| `Aead.Session.Encrypt` | benchmarks_original/tomcrypt/chacha20poly1305_memory.c:489-511 | keystream at the current position, ciphertext authenticated after it is made, padding of the associated data once |
| `Aead.Session.Decrypt` | benchmarks_original/tomcrypt/chacha20poly1305_memory.c:455-477 | ciphertext authenticated first, then the keystream; the padding is the same |
| `Aead.EncryptAll` | benchmarks_original/tomcrypt/chacha20poly1305_memory.c:489-511 | over every chunking the ciphertext is that of one call |
| `Aead.DecryptAll` | benchmarks_original/tomcrypt/chacha20poly1305_memory.c:455-477 | over every chunking the plaintext is that of one call |
| `Aead.FlattenCut` | benchmarks_original/tomcrypt/chacha20poly1305_memory.c:455-514 | any list of lengths is a chunking of the same bytes |
| `Aead.PadFills` | benchmarks_original/tomcrypt/chacha20poly1305_memory.c:464-468 | the padding is zeros, fewer than sixteen, up to a multiple of sixteen |
| `Aead.Tag` | benchmarks_original/tomcrypt/chacha20poly1305_memory.c:218-309 | the tag over associated data, padding and ciphertext |
| `Aead.RoundTrip` | benchmarks_original/tomcrypt/chacha20poly1305_memory.c:455-532 | the ciphertext is the plaintext XOR the ChaCha stream from counter 1, decryption in any chunking undoes encryption in any other, both sides reach the same tag and length, and it fails exactly on counter overflow (section 2.8 of RFC 8439) |
| `CacheLines.PowerTest` | klee/lib/Core/CacheUtil.h:56 | n & (n - 1) is zero exactly for the powers of two |
| `CacheLines.LogBase2` | klee/lib/Core/CacheUtil.h:54-62 | the exponent for every positive power of two and a refusal for every other value |
| `CacheLines.SetIsShiftAndMask` | klee/lib/Core/CacheUtil.cpp:12-37 | the set number by division is the shift and mask of the code |
| `CacheLines.TagIsShift` | klee/lib/Core/CacheUtil.cpp:13-59 | the tag by division is the shift of the code |
| `CacheLines.SameLine` | klee/lib/Core/CacheUtil.cpp:12-59 | two addresses share a line exactly when set and tag agree |
| `CacheUtil.Tables.OfConstant` | klee/lib/Core/CacheUtil.cpp:32-59 | the set or tag of a constant address |
| `CacheUtil.Tables.OfSymbol` | klee/lib/Core/CacheUtil.cpp:39-73 | the memoised set or tag expression denotes the set or tag under every assignment, after any history of calls, and is what the buffer gets |
| `CacheUtil.Tables.Compare` | klee/lib/Core/CacheUtil.cpp:94-200 | the memoised comparison holds exactly where set (or tag) agree, after any history of calls and in either argument order, and is what the buffer gets |
| `CacheUtil.Tables.CompareConstants` | klee/lib/Core/CacheUtil.cpp:76-92 | the comparison of two constants |
| `Lru.SinceAppend` | klee/lib/Core/CacheState.cpp:398-474 | the lines of the target's set touched since its last reload, one access at a time |
| `Lru.RunWellFormed` | klee/lib/Core/CacheState.cpp:398-474 | every run of the LRU cache keeps each set free of repeated tags and within the ways |
| `Lru.StackDistance` | klee/lib/Core/CacheState.cpp:398-474 | a step-by-step LRU set-associative cache holds the target's line exactly when fewer than `ways` other lines of its set were touched since its last reload |
| `CacheTrace.CountIsDistance` | klee/lib/Core/CacheState.cpp:398-474 | counting last occurrences that conflict and are not followed by a reload counts exactly those lines |
| `CacheTrace.SinceKeepLast` | klee/lib/Core/CacheState.cpp:239-241 | only the last access of each expression matters to the real cache |
| `CacheTrace.Sides` | klee/lib/Core/CacheState.cpp:239-241 | the formula sees the trace with later repeats dropped, the cache sees it with earlier repeats dropped |
| `CacheTrace.ExactIfDistinct` | klee/lib/Core/CacheState.cpp:217-318 | for every trace of distinct expressions and every assignment the formula says cached exactly when the LRU cache holds the line |
| `CacheTrace.SinceAfterUse` | klee/lib/Core/CacheState.cpp:268-300 | what came before a use of any expression that reloads a line does not matter to it |
| `CacheTrace.SinceAfterTarget` | klee/lib/Core/CacheState.cpp:268-300 | accesses before the target's own expression is used again do not matter |
| `CacheTrace.ExactIfOrderKept` | klee/lib/Core/CacheState.cpp:217-318 | the same for every trace in which, after the target's own last use, expressions recur only in the order they first appeared |
| `CacheRepeats.CoveredLines` | klee/lib/Core/CacheState.cpp:239-241 | if wherever at least `ways` first occurrences follow an expression all of them follow it among the last occurrences, then an eviction by the formula is an eviction by the cache, and the other way round with the two exchanged |
| `CacheRepeats.ExactIfHarmless` | klee/lib/Core/CacheState.cpp:217-318 | for the configured number of ways the formula says cached exactly when the LRU cache holds the line, for every assignment and cache, on every trace whose repeats are harmless in this sense, constants in it or not |
| `CacheRepeats.ExactOnlyIfHarmless` | klee/lib/Core/CacheState.cpp:217-318 | for every target, constant or symbolic, and symbolic traces the condition is exact for the configured number of ways: without it some assignment and cache tell formula and cache apart |
| `CacheRepeats.UsedAgain` | klee/lib/Core/CacheState.cpp:239-241 | an expression used again after k different others makes the formula wrong exactly when k is at least the number of ways: a, b, a is right with two ways, and a, b, c, a is wrong |
| `CacheState.KeptIsKeepFirst` | klee/lib/Core/CacheState.cpp:239-241 | for a symbolic target, and for a constant one after symbolic accesses, the record speaks of the first occurrences |
| `CacheState.ConstantTally` | klee/lib/Core/CacheState.cpp:137-155 | after constant accesses the formula of a constant target is 1 if one of them reloaded it and 0 if none did |
| `CacheState.ConstantExact` | klee/lib/Core/CacheState.cpp:137-155 | for a constant target and constant accesses formula and cache agree exactly when, with two or more ways, fewer lines than ways came since the last reload, and with one way, a reload came if and only if another line came since |
| `CacheState.ConstantTargetWrong` | klee/lib/Core/CacheState.cpp:137-155 | for every number of ways a constant trace on which they do not agree, and with one way a second one |
| `ConstantCache.Recorder.Access` | klee/lib/Core/CacheState.cpp:77-98 | the recorded tags after one access are those of the constants seen, up to the number of ways; the count is always the number of sets not yet full |
| `ConstantCache.FillOne` | klee/lib/Core/CacheState.cpp:91-97 | a new tag fills its set exactly when it makes the last way |
| `ConstantCache.FullIs` | klee/lib/Core/CacheState.cpp:68-98 | no set is left exactly when the trace has constants in `ways` lines of every set |
| `ConstantCache.FilledByConstant` | klee/lib/Core/CacheState.cpp:77-98 | the access that fills the last set is a constant |
| `ConstantCache.FullUsesAll` | klee/lib/Core/CacheState.cpp:68-98 | with fewer sets than the recorder has, one of them never fills |
| `ConstantCache.FullMeansEvicted` | klee/lib/Core/CacheState.cpp:229-236 | when no set is left, every assignment without a reload of the target makes formula and cache say evicted |
| `ConstantCache.EvictionExact` | klee/lib/Core/CacheState.cpp:229-236 | evicted from every cache exactly when `ways` other lines of the set came since the last reload, and cached in every cache otherwise |
| `ConstantCache.ReloadDefeatsShortcut` | klee/lib/Core/CacheState.cpp:229-236 | a last access that reloads the target leaves it in every cache, and the formula says so when the access is new |
| `ConstantCache.SymbolicShortcutWrong` | klee/lib/Core/CacheState.cpp:229-236 | for every symbolic target the constant that fills the recorder is an address under which the target stays cached |
| `ConstantShortcut.Shortcut` | klee/lib/Core/CacheState.cpp:229-236 | the shortcut needs all 256 sets; it is right under an assignment exactly when `ways` other lines came since the last reload; for a symbolic target it is wrong under some assignment |
| `ConstantShortcut.ConstantShortcutWrong` | klee/lib/Core/CacheState.cpp:229-236 | for every number of ways a constant target and a trace at whose end the shortcut is taken while every cache holds the line |
| `CacheState.Builder.ConflictConstr` | klee/lib/Core/CacheState.cpp:137-155 | the condition for another line in the same set; between two constants it is decided, and recorded at all, the other way round |
| `CacheState.Builder.UniqueConstr` | klee/lib/Core/CacheState.cpp:157-176 | the condition that two accesses are of different lines, dropped for constants that differ |
| `CacheState.Builder.ReloadConstr` | klee/lib/Core/CacheState.cpp:178-197 | the condition that an access does not reload the target, or a reload known outright |
| `CacheState.RecordsAppend` | klee/lib/Core/CacheState.cpp:239-312 | one more access keeps the record's meaning for symbolic and constant targets: the conditions on each recorded address say that it conflicts, is unrepeated later and is not followed by a reload |
| `CacheState.RecordsReload` | klee/lib/Core/CacheState.cpp:268-283 | a certain reload leaves a record of that access alone |
| `CacheState.FormulaCounts` | klee/lib/Core/CacheState.cpp:398-468 | the number of satisfied conjunctions is the number of accesses that count, for symbolic and constant targets |
| `CacheState.TallyIsCount` | klee/lib/Core/CacheState.cpp:398-468 | for a symbolic target, and for a constant one after symbolic accesses, that number is the count of conflicting last lines |
| `ConstantTargets.SymbolicTally` | klee/lib/Core/CacheState.cpp:137-155 | for a constant target without a certain reload that number is the number of lines last accessed by a symbolic address, since the last reload |
| `ConstantTargets.ConstantTargetCounts` | klee/lib/Core/CacheState.cpp:137-155 | for a constant target and every trace, constants in it or not, it is that number, and one more exactly when a constant reloaded the target and nothing kept after it reloads it again |
| `CacheState.Target.HandleAccess` | klee/lib/Core/CacheState.cpp:217-318 | the record after one access means what the trace so far says, for every target; the shortcut is taken exactly when the access gives every set constants in `ways` lines, and is worth what `ConstantShortcut.Shortcut` says |
| `CacheState.Target.Formula` | klee/lib/Core/CacheState.cpp:398-474 | the 32-bit sum built from the record is the number of accesses that count, for every target and trace |
| `CacheState.Analyse` | klee/lib/Core/CacheState.cpp:217-474 | a whole run: for every target the formula agrees with the cache on symbolic traces exactly when they are harmless, and for a symbolic target on every harmless trace; for a constant target and constant accesses exactly under the stated condition; the shortcut is taken exactly on traces that fill the recorder, at the first access that does, with its exact condition |
| `PointerResolution.InBoundsIs` | klee/lib/Core/Memory.h:118-136 | the wrapped offset test is the test against the object's end, zero-sized objects at their own address only |
| `PointerResolution.ResolveConstant` | klee/lib/Core/AddressSpace.cpp:57-74 | the object holding a constant address, or none exactly when none holds it |
| `PointerResolution.ResolveOne` | klee/lib/Core/AddressSpace.cpp:76-164 | success with an object some feasible address falls in; no success only when no object is reachable; a failure only with a solver that fails |
| `PointerResolution.SearchDown` | klee/lib/Core/AddressSpace.cpp:111-133 | the downward search misses no reachable object below its start, and fails only if a query does |
| `PointerResolution.SearchUp` | klee/lib/Core/AddressSpace.cpp:135-159 | the upward search misses no reachable object from its start on, and fails only if a query does |
| `PointerResolution.CheckPointerInObject` | klee/lib/Core/AddressSpace.cpp:166-198 | one object listed exactly when reachable, the limit noticed when it is reached with two or more, and broken off only if a query fails |
| `PointerResolution.Resolve` | klee/lib/Core/AddressSpace.cpp:200-280 | complete: the list is exactly the reachable objects, without duplicates; incomplete: a duplicate-free part of them, never beyond a limit of at least two; with a reliable solver and no time limit it is incomplete exactly when the limit is at least two and as many objects are reachable, and a limit of one is kept exactly when at most one is |
| `PointerResolution.CollectDown` | klee/lib/Core/AddressSpace.cpp:237-257 | the downward collection and its early ends, broken off only by a failed query or a time limit |
| `PointerResolution.CollectUp` | klee/lib/Core/AddressSpace.cpp:259-276 | the upward collection and its early ends, broken off only by a failed query or a time limit |
| `PointerResolution.ListSize` | klee/lib/Core/AddressSpace.cpp:200-280 | a complete list has as many entries as there are reachable objects |
| `PointerResolution.LimitOfOne` | klee/lib/Core/AddressSpace.cpp:166-198 | a complete list has at most one entry exactly when at most one object is reachable |
| `PointerResolution.LimitOfOneExceeded` | klee/lib/Core/AddressSpace.h:90-95 | two objects and a pointer to either: with a limit of one, a reliable solver and no time limit, two entries come back as a complete answer |
| `CopyOnWrite.AddressSpace.Fork` | klee/lib/Core/AddressSpace.h:57-67 | a copy that shares every object; both keys move on by one in 32 bits, and neither space sees a change |
| `CopyOnWrite.AddressSpace.BindObject` | klee/lib/Core/AddressSpace.cpp:22-29 | an object without an owner becomes this space's own and is bound here |
| `CopyOnWrite.AddressSpace.UnbindObject` | klee/lib/Core/AddressSpace.cpp:31-33 | one object gone from this space |
| `CopyOnWrite.AddressSpace.GetWriteable` | klee/lib/Core/AddressSpace.cpp:41-53 | the object itself when its owner is this key, else a fresh copy with the same contents that this space owns |
| `CowMachine.StepExact` | klee/lib/Core/AddressSpace.cpp:22-53 | one operation does to all spaces what it does where forks copy all memory, exactly unless it is a write to a place whose owner is the writing key, bound elsewhere as well, that changes the byte |
| `CowMachine.RunExact` | klee/lib/Core/AddressSpace.cpp:22-53 | a run agrees with the copying machine at every point exactly when none of its operations is such a write |
| `CowMachine.OwnedHides` | klee/lib/Core/AddressSpace.cpp:41-53 | while owners of shared places stay below the keys of the spaces that share them, no write shows elsewhere |
| `CowMachine.OwnedStep` | klee/lib/Core/AddressSpace.h:57-67 | every operation keeps that, as long as it does not take a key past 2^32 - 1 |
| `CowMachine.RunIsDeep` | klee/lib/Core/AddressSpace.h:57-67 | over every run in which no lineage of forks takes a key to 2^32, however many forks there are, all spaces see what they would see if forks copied everything |
| `CowMachine.WrapShows` | klee/lib/Core/AddressSpace.h:66 | n forks of one space after a bind, then a write: the views are those of the copying machine exactly unless n is a positive multiple of 2^32 |
| `CopyOnWrite.Process.Step` | klee/lib/Core/AddressSpace.cpp:22-53 | one fork, bind, unbind or write on the objects is one step of the machine on values, wrap-around included |
| `CopyOnWrite.Run` | klee/lib/Core/AddressSpace.h:57-67 | over every run the objects show the views of the machine on values, and those of the copying machine as long as no key wraps |
| `AesColumns.UnmixMix` | benchmarks_original/tomcrypt/aes.c:116-128 | InvMixColumns undoes MixColumns, from the multiples the table identities name |
| `AesColumns.UnmixXor` | benchmarks_original/tomcrypt/aes.c:1320-1362 | InvMixColumns distributes over exclusive or, which is what lets round keys be unmixed ahead |
| `AesRounds.TableRoundCorrect` | benchmarks_original/tomcrypt/aes.c:1450-1475 | a round by the tables Te0 to Te3 is SubBytes, ShiftRows, MixColumns, AddRoundKey (section 5.1 of FIPS 197) |
| `AesRounds.LastRoundCorrect` | benchmarks_original/tomcrypt/aes.c:1513-1540 | the last round leaves out MixColumns |
| `AesRounds.InvTableRoundCorrect` | benchmarks_original/tomcrypt/aes.c:1629-1655 | a round by Td0 to Td3 is a round of the equivalent inverse cipher (section 5.3.5 of FIPS 197) |
| `AesRounds.InvLastRoundCorrect` | benchmarks_original/tomcrypt/aes.c:1693-1720 | the last inverse round, by masks of Td4 |
| `AesRounds.DecryptEncrypt` | benchmarks_original/tomcrypt/aes.c:1386-1723 | the equivalent inverse cipher undoes the cipher for every schedule whose inverse keys are the reversed keys, inner ones unmixed |
| `Aes.SetupMixCorrect` | benchmarks_original/tomcrypt/aes.c:1192-1198 | setup_mix is SubWord after RotWord, and after a rotation by a byte SubWord alone |
| `Aes.RconCorrect` | benchmarks_original/tomcrypt/aes.c:1125-1129 | the ten round constants are the powers of x in GF(2^8) |
| `Aes.KeyBytes` | benchmarks_original/tomcrypt/aes.c:1241-1245 | the words before the first turn are the key, the first byte at the top |
| `Aes.FirstWord` | benchmarks_original/tomcrypt/aes.c:1248-1250 | the first word of each turn is that of KeyExpansion (section 5.2 of FIPS 197) |
| `Aes.NextWord` | benchmarks_original/tomcrypt/aes.c:1251-1301 | the other words of each turn, with the extra substitution of 32-byte keys |
| `Aes.Key.Expand16` | benchmarks_original/tomcrypt/aes.c:1247-1258 | 44 words of KeyExpansion |
| `Aes.Key.Expand24` | benchmarks_original/tomcrypt/aes.c:1259-1278 | 52 words of KeyExpansion |
| `Aes.Key.Expand32` | benchmarks_original/tomcrypt/aes.c:1279-1303 | 60 words of KeyExpansion |
| `Aes.Key.InvertKeys` | benchmarks_original/tomcrypt/aes.c:1310-1371 | the inverse schedule: round keys reversed, all but the outer two unmixed |
| `Aes.Key.Setup` | benchmarks_original/tomcrypt/aes.c:1220-1374 | exactly the three key lengths and the standard round count (or 0) are accepted; both schedules are then those of the standard; otherwise nothing changes |
| `Aes.Key.EcbEnc` | benchmarks_original/tomcrypt/aes.c:1386-1543 | two rounds per turn, in place or not: the Cipher of the standard on the forward keys |
| `Aes.Key.EcbDec` | benchmarks_original/tomcrypt/aes.c:1566-1723 | the equivalent inverse cipher on the inverse keys |
| `Aes.BytesRoundTrip` | benchmarks_original/tomcrypt/aes.c:38-46 | loading a block and storing it are inverse |
| `Aes.InputBytes` | benchmarks_original/tomcrypt/aes.c:42-46 | byte r + 4 c of a block is row r of column c, from the top (section 3.4 of FIPS 197) |
| `Aes.EncryptThenDecrypt` | benchmarks_original/tomcrypt/aes.c:1220-1723 | for every 16-, 24- or 32-byte key and every block the ciphertext is that of FIPS 197 and decryption returns the block |
| `CamelliaHalves.FlInverseFl` | benchmarks_original/tegra/camellia_generic.c:1058-1071 | FL and FL^-1 undo each other |
| `CamelliaHalves.FlInversePush` | benchmarks_original/tegra/camellia_generic.c:408-410 | a difference before FL^-1 comes out pushed, whatever the data |
| `CamelliaHalves.FlPush` | benchmarks_original/tegra/camellia_generic.c:465-467 | FL turns a pushed difference back into the difference |
| `CamelliaHalves.PushXor` | benchmarks_original/tegra/camellia_generic.c:497-499 | pushing is linear |
| `Camellia.MovedIsText` | benchmarks_original/tegra/camellia_generic.c:1090-1143 | with the keys moved to the output of the round before, the code computes the cipher of section 2.3 of RFC 3713 for every block and all round functions |
| `CamelliaSetup.LoosePushIs` | benchmarks_original/tegra/camellia_generic.c:499-508 | the unparenthesised rotation is the rotation but for the low bit, which is off exactly on a collision |
| `CamelliaSetup.RightGroup` | benchmarks_original/tegra/camellia_generic.c:401-427 | kw2 absorbed by the even rounds of one group and pushed through FL^-1 |
| `CamelliaSetup.LeftGroup` | benchmarks_original/tegra/camellia_generic.c:446-480 | kw4 absorbed by the odd rounds of one group and pushed back through FL |
| `CamelliaSetup.EmittedIs` | benchmarks_original/tegra/camellia_generic.c:484-573 | the subkeys written for a group are the moved ones, but for the collisions |
| `CamelliaSetup.SetupTail` | benchmarks_original/tegra/camellia_generic.c:395-574 | all subkeys, for max 24 and 32, in place |
| `CamelliaExact.TailExact` | benchmarks_original/tegra/camellia_generic.c:395-574 | code and standard agree for all blocks and round functions exactly when no rotated bit collides, a condition on the subkeys given |
| `CamelliaExact.OneCollision` | benchmarks_original/tegra/camellia_generic.c:499-549 | with a single collision in the left half every block comes out wrong already under the zero round function |
| `CamelliaExact.CollidingCollides` | benchmarks_original/tegra/camellia_generic.c:496-499 | subkeys that collide |
| `CamelliaRound.LooseRor8Exact` | benchmarks_original/tegra/camellia_generic.c:1086 | the round macro's loosely grouped rotation is a rotation exactly when the words share no bit |
| `CamelliaRound.RoundExact` | benchmarks_original/tegra/camellia_generic.c:1073-1087 | the round function of the code is the one with a proper rotation exactly on the inputs where the top three bytes of one table sum share no bit with the other |
| `CamelliaRound.ShippedDiffers` | benchmarks_original/tegra/camellia_generic.c:58-260 | with the table entries of the code it is another function at the input 1 |
| `CamelliaF.ProperIsF` | benchmarks_original/tegra/camellia_generic.c:1073-1087 | with tables that repeat four S-boxes, the look-ups with a proper rotation are the F-function of section 2.4.1 of RFC 3713, written on its eight bytes |
| `CamelliaF.MixedIsF` | benchmarks_original/tegra/camellia_generic.c:1073-1087 | and the code's round function is that F exactly on the inputs where the two words share no bit |
| `CamelliaRound.CleanRunExact` | benchmarks_original/tegra/camellia_generic.c:1073-1087 | the code's round function takes a block through the states of the proper one, pair of rounds by pair, exactly when every round input of that run is such an input |
| `CamelliaRound.CleanText` | benchmarks_original/tegra/camellia_generic.c:1073-1087 | and then the ciphertext is the proper one |
| `CamelliaRound.DirtyText` | benchmarks_original/tegra/camellia_generic.c:1073-1087 | for every other input there are subkeys with which the zero block's ciphertext differs |
| `CamelliaRound.CipherExact` | benchmarks_original/tegra/camellia_generic.c:1073-1087 | for all subkeys and blocks the two round functions give one cipher exactly when they agree on every input |
| `CamelliaBlocks.BackUndoes` | benchmarks_original/tegra/camellia_generic.c:1145-1198 | decryption undoes encryption, halves exchanged between, for all subkeys and round functions and both lengths |
| `CamelliaBlocks.RoundSm` | benchmarks_original/tegra/camellia_generic.c:1073-1087 | one round in place |
| `CamelliaBlocks.Fls` | benchmarks_original/tegra/camellia_generic.c:1058-1071 | FL on one half and FL^-1 on the other, in place and in the macro's order |
| `CamelliaBlocks.DoEncrypt` | benchmarks_original/tegra/camellia_generic.c:1090-1143 | the rounds and layers in place |
| `CamelliaBlocks.DoDecrypt` | benchmarks_original/tegra/camellia_generic.c:1145-1198 | the same subkeys backwards |
| `CamelliaBlocks.EncryptThenDecrypt` | benchmarks_original/tegra/camellia_generic.c:395-1198 | set-up, encryption and decryption: the block always comes back; without collisions in the set-up the ciphertext is that of RFC 3713's structure with the code's round function, and with the proper round function where all round inputs of the block are clean |
| `Feistel.Retrace` | benchmarks_original/openssl/des.c:385-442 | running back from the exchanged result retraces any Feistel run of even length |
| `Des.PermTwice` | benchmarks_original/openssl/des.c:76-78 | each exchange of bits is its own inverse and keeps both words below 2^32 |
| `Des.PermutationsInverse` | benchmarks_original/openssl/des.c:80-98 | IP and FP undo each other, the words exchanged between |
| `Des.RotationsInverse` | benchmarks_original/openssl/des.c:379-446 | the rotations around the rounds cancel on words below 2^32 |
| `Des.RunLow` | benchmarks_original/openssl/des.c:294-305 | all intermediate words stay below 2^32 in 64-bit words |
| `Des.RoundTrip` | benchmarks_original/openssl/des.c:356-452 | for all tables and key schedules decryption undoes encryption exactly on words below 2^32 |
| `DesBits.IpMoves` | benchmarks_original/openssl/des.c:80-88 | the five exchanges are the initial permutation of FIPS 46-3, bit by bit |
| `DesBits.EvenWindows` | benchmarks_original/openssl/des.c:297-301 | the even tables see six neighbouring bits of the half, around the ends of the word |
| `DesBits.OddWindows` | benchmarks_original/openssl/des.c:297-305 | so do the odd tables, between them |
| `DesBits.MixedIsF` | benchmarks_original/openssl/des.c:294-305 | what a round adds to one half is the sum over the eight tables, in order, of their entry at six bits of the other half plus six bits of the key |
| `Des.Encrypt1` | benchmarks_original/openssl/des.c:356-452 | both directions in place, four rounds a turn |
| `Des.EncryptThenDecrypt` | benchmarks_original/openssl/des.c:356-452 | the two calls in sequence |
| `Seed.Op` | benchmarks_original/tegra/seed.c:325-339 | one round: the half is XOR-ed with what the other half and two key words give |
| `SeedF.LookIsG` | benchmarks_original/tegra/seed.c:325-339 | with tables that hold two S-boxes under four masks, one sum of look-ups is the function G of RFC 4269 on four bytes |
| `SeedF.MaskEntries` | benchmarks_original/tegra/seed.c:50-316 | the four masks, as entries of the tables show them |
| `SeedF.MixedIsF` | benchmarks_original/tegra/seed.c:325-339 | and a round adds the F-function of RFC 4269 |
| `Seed.Encrypt` | benchmarks_original/tegra/seed.c:377-411 | sixteen rounds and the exchange, in place or not |
| `Seed.Decrypt` | benchmarks_original/tegra/seed.c:414-447 | the same keys backwards |
| `Seed.EncryptThenDecrypt` | benchmarks_original/tegra/seed.c:377-447 | for all tables and key schedules the block comes back |
| `Sha512.WordOfBytes` | benchmarks_original/hpn-ssh/hash.c:22-46 | a word stored big-endian and loaded again |
| `Sha512.WordBytes` | benchmarks_original/hpn-ssh/hash.c:20-32 | the first byte loaded is the most significant |
| `Sha512.ChChooses` | benchmarks_original/hpn-ssh/hash.c:51 | Ch takes its second argument where the first is set and its third elsewhere |
| `Sha512.MajFirst` | benchmarks_original/hpn-ssh/hash.c:52 | where its first two arguments agree Maj is what they are |
| `Sha512.MajLast` | benchmarks_original/hpn-ssh/hash.c:52 | the same for the last two |
| `Sha512.MajOuter` | benchmarks_original/hpn-ssh/hash.c:52 | the same for the outer two |
| `Sha512.SigmasRotate` | benchmarks_original/hpn-ssh/hash.c:48-56 | the four sums of rotations and shifts of section 4.1.3 of FIPS 180-4 |
| `Sha512.FirstStep` | benchmarks_original/hpn-ssh/hash.c:78-88 | the first step on the message "abc" gives the words of the standard's example |
| `Sha512.Renew` | benchmarks_original/hpn-ssh/hash.c:58 | one word of the window renewed in place becomes the next word of the schedule |
| `Sha512.Expand` | benchmarks_original/hpn-ssh/hash.c:60-76 | EXPAND turns W_{t-16} .. W_{t-1} into W_t .. W_{t+15} (section 6.4.2 of FIPS 180-4) |
| `Sha512.F` | benchmarks_original/hpn-ssh/hash.c:78-88 | a round on the eight variables |
| `Sha512.OneBlock` | benchmarks_original/hpn-ssh/hash.c:113-244 | eighty rounds over the window and the addition are the compression function |
| `Sha512.HashConcat` | benchmarks_original/hpn-ssh/hash.c:90-256 | hashing blocks composes: what is left over from one input goes in front of the next |
| `Sha512.StateOfBytes` | benchmarks_original/hpn-ssh/hash.c:36-46 | the state stored between calls is the state loaded again |
| `Sha512.HashBlocks` | benchmarks_original/hpn-ssh/hash.c:90-256 | the fold of the compression function over all whole blocks, and the length modulo 128 returned |
| `Sha512.TwoCalls` | benchmarks_original/hpn-ssh/hash.c:90-256 | two calls leave the state of one |
| `BigEndian.XorValue` | benchmarks_original/tomcrypt/ocb3_init.c:78-87 | exclusive or byte by byte is exclusive or of the big-endian numbers |
| `BigEndian.ShiftedValue` | benchmarks_original/tomcrypt/ocb3_init.c:343-346 | moving a string some bits to the left multiplies its number, less what leaves and more what enters |
| `Ocb3.XorBlocks` | benchmarks_original/tomcrypt/ocb3_init.c:78-87 | both loops, whichever blocks are the same |
| `Ocb3.DoubleInto` | benchmarks_original/tomcrypt/ocb3_init.c:342-350 | one turn of the table loop is doubling in GF(2^128) (section 2 of RFC 7253) |
| `Ocb3.BuildNonce` | benchmarks_original/tomcrypt/ocb3_init.c:205-211 | the nonce block is the number of section 4.2 of RFC 7253 for every nonce up to 15 bytes and every tag length |
| `Ocb3.SliceValue` | benchmarks_original/tomcrypt/ocb3_init.c:231-239 | bytes cut at a bit offset are the 128 bits of the 192-bit string from there on |
| `Ocb3.StretchValue` | benchmarks_original/tomcrypt/ocb3_init.c:223-229 | Stretch as a number: Ktop followed by its bits 1 to 64 added to its bits 9 to 72 (section 4.2 of RFC 7253) |
| `Ocb3.OffsetZero` | benchmarks_original/tomcrypt/ocb3_init.c:197-240 | the offset is the 128-bit slice of Stretch at bit `bottom`, all indices in range |
| `Ocb3.State.FillTable` | benchmarks_original/tomcrypt/ocb3_init.c:328-351 | L_$ is the double of L_*, and L_i its (i + 2)-fold double, for every i below 32 |
| `Ocb3.State.Init` | benchmarks_original/tomcrypt/ocb3_init.c:267-369 | the table of doublings, Offset_0, the cleared sums and counters of data and associated data; nothing changed on refusal |
| `CallPathTree.Grow` | klee/lib/Core/CallPathManager.cpp:61-72 | a pair not on the chain can be put below it and no pair repeats on any chain |
| `CallPathTree.SubtreeIsTotal` | klee/lib/Core/CallPathManager.cpp:44-59 | summing by children is summing over every node whose chain passes the top |
| `CallPath.FindOnChain` | klee/lib/Core/CallPathManager.cpp:64-66 | the nearest node on the chain with the pair, or none |
| `CallPath.Manager.ComputeCallPath` | klee/lib/Core/CallPathManager.cpp:61-72 | the node on the chain, or one new node |
| `CallPath.Manager.GetCallPath` | klee/lib/Core/CallPathManager.cpp:74-88 | the node whose path from the root is the parent's path with this call at its end, cut back to the pair where it stands on it; a new node only where the pair is neither on the chain nor already a child |
| `CallPath.Manager.GetSummaryStatistics` | klee/lib/Core/CallPathManager.cpp:44-59 | every path gets the sum of its subtree, every cell the sums over its paths; the root's summary grows with each call |
| `CallPath.Conserved` | klee/lib/Core/CallPathManager.cpp:61-88 | after any requests each node's statistics and count are the sums over the requests answered with it |
| `CallPath.GrownIsAsked` | klee/lib/Core/CallPathManager.cpp:61-88 | what getCallPath grows is what one request asks of the tree |
| `CallPath.ChainsDiffer` | klee/lib/Core/CallPathManager.cpp:61-72 | different nodes have different paths |
| `CallPath.RequestPath` | klee/lib/Core/CallPathManager.cpp:61-88 | after any requests, the node each one got still has the path of its parent with its call at the end, cut back where the pair stands on it |
| `CallPath.Run` | klee/lib/Core/CallPathManager.cpp:44-88 | over every sequence of requests the tree, statistics and counts are the fold of the requests, each request got the node with the path it asked for, no pair repeats on a chain or under a parent, and every cell of the summary is its count and the sum over its subtrees |
| `KTestFormat.RoundTrip` | klee/lib/Basic/KTest.cpp:94-211 | what the writer produces starts with the header KTEST and version 3 and, followed by anything, is read back as the same record (with the current version) |
| `KTestFormat.Versions` | klee/lib/Basic/KTest.cpp:94-147 | a file with either header is read back for every version up to 3, without the symbolic arguments below version 2, and rejected for every later one |
| `KTestFormat.OtherHeaders` | klee/lib/Basic/KTest.cpp:72-80 | any other header is rejected |
| `KTestFormat.PrefixRejected` | klee/lib/Basic/KTest.cpp:94-147 | every strict prefix of a written file is rejected |
| `KTestFormat.MoreParse` | klee/lib/Basic/KTest.cpp:94-147 | bytes after a record never change what is read |
| `KTestFile.File.Read32` | klee/lib/Basic/KTest.cpp:25-31 | four bytes as a big-endian number |
| `KTestFile.File.Write32` | klee/lib/Basic/KTest.cpp:33-40 | a number as four bytes |
| `KTestFile.File.ReadString` | klee/lib/Basic/KTest.cpp:42-53 | length, bytes and terminator; an empty string is a failure |
| `KTestFile.File.WriteBlock` | klee/lib/Basic/KTest.cpp:55-62 | length and bytes; an empty block is a failure |
| `KTestFile.File.FromFile` | klee/lib/Basic/KTest.cpp:94-147 | the reader accepts exactly what the format's parser accepts, with its value |
| `KTestFile.File.ToFile` | klee/lib/Basic/KTest.cpp:178-211 | the writer succeeds exactly when no string or object is empty, and then the file is the record's encoding |
| `KTestFile.SaveLoad` | klee/lib/Basic/KTest.cpp:94-211 | saved and loaded, a record comes back exactly when it could be written |
| `KTestFile.LoadCut` | klee/lib/Basic/KTest.cpp:94-211 | a file cut short anywhere is not loaded |

## Left out

- CacheRepeats.ExactOnlyIfHarmless: necessity is proved for traces of symbolic addresses, with any target; the lines of constant accesses cannot be chosen, so with them the order may matter less.
- CacheState.ConstantExact: agreement with the cache is decided for constant accesses only, and for symbolic ones by `CacheState.Analyse`; after a mixture of both the formula of a constant target is counted (`ConstantTargets.ConstantTargetCounts`) and not compared.
- ConstantCache.Recorder.Access: with more than 256 sets, which the option accepts, the code indexes its vector of 256 sets out of range, which has no defined meaning.
- CacheState.Analyse: the same, for every target that is followed.
- CowMachine.WrapShows: exact for forks of one space; which other runs that wrap a key show a write is the state condition of `CowMachine.StepExact`.
- CamelliaExact.TailExact: the round functions compared may differ from round to round; that one function used in all rounds tells the ciphers apart is proved for a single collision in the left half only (`CamelliaExact.OneCollision`).
- ChaCha.State.Crypt: input and output are separate sequences; encryption over its own input is not modelled.
- Aes.Key.Setup: the tables are their defining identities, for any S-box with an inverse; their 256 entries are not checked.
- Sha512.HashBlocks: the eighty round constants are a parameter, and the padding of `crypto_hash_sha512`, which leaves bytes between 0x80 and the length unset, is not modelled.
- Ocb3.State.Init: L_* and Ktop are inputs, because the calls to the block cipher are commented out; only blocks of 16 bytes.
- CallPath.Manager.GetSummaryStatistics: a statistics record is one unbounded number; records of 64-bit counters add up the same way modulo 2^64.
- KTestFile.File.FromFile: allocation failures and lengths that overflow an allocation are not modelled; a count of zero is taken to allocate.
- PointerResolution.Resolve: time is not modelled; a time limit, if there is one, may end the search at any object, and a solver that is not reliable may fail at any query.
- Camellia's key expansion before `camellia_setup_tail` and SEED's and DES's key schedules: only fix the subkeys, which are arbitrary here.
- `mergeSpecCacheState`, heap reclamation in `CacheState`, several targets at once, logging and timing.
- SMT solvers, expression simplification, LLVM types, searchers, `copyInConcretes` and `copyOutConcretes`, external calls, file-handle errors.
- `chacha20poly1305_memory` and its `main`: the call that would produce the tag is commented out, and the lengths it would append are with it; `Aead.Tag` finishes the authenticator on what the modelled calls gave it.
- Other benchmarks (litmus programs, `sort.c`, `Regexp.c`, `base16_encode.c`, `str2key.c`, Salsa20) and the copies under `benchmarks_cache`: they would only add easier members.
