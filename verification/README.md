# Models of gSuneido

The following parts of the system, each modelled after its source and proved correct in Dafny:

* **The transaction conflict checker** (`db19/check.go`). `CheckModel` states every message as a
  function on an immutable state, with the random choices as arguments; `Check` is the class that
  updates its fields as the source does, and every method is proved to compute those functions.
  Over the model stand the results about whole runs: `CheckSerial`, `CheckReplay` and `CheckExact`
  (serializability), `CheckPrune` (forgetting is invisible), `CheckExclusive` (exclusive access),
  `CheckAborts` (who is aborted), `CheckInvariant` (consistency). `OrdSet` is the btree in which
  the checker keeps the written keys.
* **The byte-code compiler and the interpreter** (`compile/codegen.go`, `core/interp.go`). `Ast` is
  the modelled part of the language and its meaning; `Ops` an instruction machine without fused
  opcodes; `LayoutExpr` and `LayoutStmt` say where the instructions of each construct stand;
  `SimExpr` and `SimStmt` prove that code with that layout does what the program does. `Codegen`
  is the one-pass compiler, a class that appends to and patches bytes (`Bytes`, `Encoding`,
  `Chains`); `ByteSim` relates bytes to instructions, `Compiler` puts this together, `Landing` and
  `Astray` say where a `continue` lands, `Interp` is the fetch and execute loop, and `Execution`
  compiles and interprets.
* **Products** (`Products`): when their order of evaluation is the documented one.
* **Copy-on-write of objects** (`CopyOnWrite`, after `core/suobject.go`): a state machine whose
  steps are the single memory accesses of threads working on different objects.
* **Objects as one map** (`SuObject`, after `core/suobject.go`): the list and the hash map behind
  an object.
* **Packed numbers** (`Packing` over `Radix`, after `core/suint64.go` and `core/sudnum.go`): the
  bytes that integers and decimal numbers are stored as, their order, and reading them back.
* **Records** (`Record`, after `core/record.go`): the bytes of a database record, built and read.

`dafny verify dfyconfig.toml` checks everything.

## Findings

Five properties that the source is meant to have do not hold. For each there is a lemma with the
input that shows it, and a theorem saying exactly when the property holds.

* **An empty key can escape the conflict check.** `ordset.Set.Insert` takes an empty key to be
  present in an empty set, because an unused slot holds the empty string (util/ordset/ordset.go:60-71).
  An index on no columns has that key, and so has one on a single column for a record whose value
  there is empty. The first write of such a key by a transaction is not recorded.
  `CheckLost.EmptyKeyEscapesTheCheck` gives a run of eight messages in which two transactions
  commit although each has read what the other wrote, and whose joint result no serial order can
  produce. `CheckExact.SerializableExactlyWhenHarmless`: a run is serializable in commit order if
  and only if no key lost in this way is read by an updating transaction that overlapped the writer
  and committed after it. `OrdSet.Set.Insert` states when the key is lost.
* **A `forever` loop that starts with `continue` is compiled wrongly.** The label to go back to is
  then the end of the code, which the test in continueStmt takes for a label still to come
  (compile/codegen.go:397). The jump is chained to itself and jumps by its own address.
  `Landing.EveryContinueLands`: in compiled code every `continue` lands where it should if and only
  if no `forever` loop starts with one. `Astray.CompileProgram` compiles `x; forever { continue }`
  to the nine bytes 12 k 1 54 0 3 54 255 250, and `Astray.LeadingContinueGoesAstray` shows that they
  return although the program never ends. `Compiler.Compile` promises the meaning of the program for
  every other one.
* **Packed negative numbers are not always in order.** docs/index.md:487 promises that packed values
  compare as raw bytes, and the digits of negative numbers are complemented for that, but what has
  no more digits still sorts first: -100 before -101 (`Packing.OutOfOrder`). `Packing.ByteOrder`: for
  any two numbers the order of the bytes is that of the numbers, unless both are negative with the
  same exponent and the digit bytes of the greater are a proper prefix of those of the smaller, and
  then it is reversed.
* **One integer cannot be unpacked.** intable compares with the packed least integer as bytes
  (core/sudnum.go:245), and so takes -9223372036854775800 for less than the least;
  unpackDnum then panics at its nine bytes of digits. `Packing.RoundTrip`: every other integer of 64
  bits comes back with its value. `Packing.DecimalRoundTrip`: so does every decimal number.
* **Products are not evaluated from left to right.** suneidoc/Language/Expressions/Overview.md:28
  says that they are, but the compiler (compile/codegen.go:846-865), like the evaluator of syntax
  trees (compile/ast/expr.go:383-401), takes all factors before the divisors, so that
  `y / (x = y) * x` finds x uninitialized (`Products.FactorTooEarly`).
  `Products.InOrderExactlyWhen`: with exact arithmetic, products with divisors in given places are
  evaluated from left to right, whatever their operands do, if and only if no factor comes after a
  divisor. `Products.SteadyInOrder`: operands that neither fail nor change anything may come in any
  order.

## Model

| member | source | states |
|---|---|---|
| `CheckExact.SerializableExactlyWhenHarmless` | db19/check.go:19-38 | For every valid run: executing the committed transactions one at a time in commit order gives the same database as running them concurrently, for all databases and all they may compute, if and only if no key lost by ordset lies in a range read by an updating transaction that overlapped the writer and committed later |
| `CheckReplay.EveryRunIsSerializable` | db19/check.go:215-433 | A valid run in which no lost key does harm is serializable: each updating transaction, run alone on the state left by the previous one, reads what it read from its snapshot, phantoms included, and has the same effects |
| `CheckReplay.SnapshotStillCurrent` | db19/check.go:564-597 | A place in a range that a committed updating transaction read still has at its commit the value of its snapshot, unless an overlapping transaction's write of it was lost |
| `CheckReplay.NothingLostIsHarmless` | util/ordset/ordset.go:60-71 | If no message of a run writes an empty key into an empty set, nothing lost can do harm |
| `CheckReplay.InCommitOrder` | db19/check.go:19-20 | The order of the commits is one of the serial orders |
| `CheckSerial.RunInv` | db19/check.go:215-613 | In every run no transaction that may still commit updates has read what an overlapping one wrote, the records agree with the history apart from lost keys, and committed updates that an active transaction overlaps are remembered |
| `CheckLost.EmptyKeyEscapesTheCheck` | util/ordset/ordset.go:60-71 | A valid run of eight messages with two committed transactions whose joint result differs from that of every serial order |
| `CheckPrune.PruningIsInvisible` | db19/check.go:618-648 | For every sequence of messages and choices, a checker that forgets and one that keeps all committed transactions and ended exclusives for ever have the same active transactions after every message, and their states differ only by what nobody can overlap |
| `CheckExclusive.WritesOutsideExclusives` | db19/check.go:161-185 | In every run, a transaction that committed a write to a table ended before the exclusive access to the table began or started after it ended, also when the entry has been cleaned away |
| `CheckInvariant.StepsStayConsistent` | db19/check_verify.go:12-73 | After any sequence of messages whatever the checker satisfies the rules of VerifyConsistency, and if no oldest transaction is known none committed is remembered |
| `Check.Check.VerifyConsistency` | db19/check_verify.go:12-73 | The consistency check reports no error in any valid state |
| `CheckInvariant.Abort1OfAbortsExactlyOne` | db19/check.go:499-521 | A conflict between two updaters takes exactly one of them out of the active ones, the acting one if the other has committed; otherwise none is aborted and one without updates is marked |
| `CheckAborts.ActSparesReaders` | db19/check.go:334-343 | A read or write never aborts another transaction that has attempted no update; it changes nothing of it but its conflict mark |
| `CheckAborts.ExclusiveSparesReaders` | db19/check.go:161-174 | Taking exclusive access aborts no transaction without updates |
| `CheckAborts.SurvivorHasNoRivals` | db19/check.go:215-243 | An updater that survives the check of an action conflicts with nobody left, except readers that have been marked |
| `Check.Check.Read` | db19/check.go:215-268 | Computes the model's read for some order and some coin choices, and keeps the invariant |
| `Check.Check.Output` | db19/check.go:348-393 | Computes the model's write of new keys |
| `Check.Check.Update` | db19/check.go:287-331 | Computes the model's write of old and new keys |
| `Check.Check.Delete` | db19/check.go:395-464 | Computes the model's write of old keys |
| `Check.Check.Commit` | db19/check.go:564-608 | Computes the model's commit, and returns exactly the tables the transaction wrote |
| `Check.Check.Abort` | db19/check.go:537-558 | Computes the model's abort with its clean-up |
| `Check.Check.CleanEnded` | db19/check.go:618-648 | Forgets exactly the entries that ended before the oldest active transaction started |
| `Check.Check.AddExclusive` | db19/check.go:161-174 | Aborts the writers of the table, in some order, and makes it exclusive |
| `Check.Check.EndExclusive` | db19/check.go:176-185 | Releases the table at a new time and cleans up |
| `Check.Check.Tick` | db19/check.go:663-672 | Aborts the transactions that have reached the maximum age |
| `OrdSet.Set.Insert` | util/ordset/ordset.go:43-98 | Succeeds exactly when the key's leaf has a free slot or the tree has one for a leaf; the set then is the old one with the key, except that an empty key stays out of an empty set |
| `OrdSet.Set.AnyInRange` | util/ordset/ordset.go:102-116 | True if and only if some key of the set is in the range |
| `Compiler.Compile` | compile/codegen.go:98-210 | Fails only for a misplaced break or continue, or at a size limit, which takes more than 255 parameters and instructions; otherwise every continue lands if and only if no forever loop starts with one, and if so the bytes mean what the program means, both ways and with the same locals |
| `Compiler.CompiledMeans` | compile/codegen.go:300-498 | Finished bytes that spell code with the layout of a function, with no stray jump, end if and only if the function does, with the same result or panic and the same locals |
| `SimStmt.SimF` | compile/codegen.go:201-210 | Code with the layout of a function body, run from an empty stack, ends as the body does, or runs as long as the body lasts |
| `SimStmt.SimS` | compile/codegen.go:300-498 | Code with the layout of a statement leaves the stack as it was and goes where the outcome says: on, to the loop's end, to its continue label, or out |
| `SimExpr.SimE` | compile/codegen.go:613-903 | Code with the layout of an expression pushes its value or panics as it does, from any stack and locals |
| `Products.InOrderExactlyWhen` | compile/codegen.go:846-865 | With exact arithmetic: products with divisors in given places have the value, effects and errors of evaluation from left to right, for all operands, if and only if no factor comes after a divisor |
| `Products.FactorTooEarly` | compile/codegen.go:846-865 | `y / (x = y) * x` raises an error for x, while from left to right it would not |
| `Products.SteadyInOrder` | compile/ast/expr.go:383-401 | If the operands neither fail nor have effects, and arithmetic is exact, multiplying all factors and dividing once gives the value from left to right |
| `ByteSim.RunRefines` | core/interp.go:216-366 | Running n opcodes of finished bytes is running between n and 2n instructions: fused opcodes change nothing, and no jump lands inside one |
| `Codegen.Cgen.Emit` | compile/codegen.go:1097-1116 | Adds one instruction to those the bytes spell, fused with the last opcode if and only if the table has the pair and no label stands between |
| `Codegen.Cgen.EmitJump` | compile/codegen.go:1145-1149 | Adds a jump with the given operand, or fails exactly if that is not an int16 |
| `Codegen.Cgen.EmitBwdJump` | compile/codegen.go:1151-1154 | Adds a jump to a place already passed |
| `Codegen.Cgen.Label` | compile/codegen.go:1156-1159 | Marks the next instruction as a place to jump to, so that it is not fused |
| `Codegen.Cgen.PlaceLabel` | compile/codegen.go:1161-1171 | Makes exactly the jumps on the chain go to the end of the code |
| `Chains.PatchChain` | compile/codegen.go:1161-1175 | Terminates; changes no byte but the operands of the jumps on the chain, and takes just these off the waiting ones |
| `Chains.ChainRises` | compile/codegen.go:1145-1149 | The jumps on a chain lie one after the other, each linked to an earlier one |
| `Codegen.Cgen.ContinueStmt` | compile/codegen.go:395-407 | Emits the bytes of both branches of the source, also when the jump then goes astray |
| `Codegen.Cgen.SwitchStmt` | compile/codegen.go:423-449 | Emits code with the layout of a switch and keeps the chains of the enclosing loop |
| `Codegen.Cgen.LoopStmt` | compile/codegen.go:451-498 | Emits code with the layout of a loop, all its breaks and continues placed |
| `Codegen.Cgen.Expr` | compile/codegen.go:613-903 | Emits code with the layout of an expression and leaves no jump waiting |
| `Codegen.Cgen.Function` | compile/codegen.go:201-210 | Emits the whole layout of a function, no jump waiting, or fails as Compile says |
| `Landing.EveryContinueLands` | compile/codegen.go:395-407 | In finished bytes with the layout of a function every continue jumps to its loop's label, or to the loop's first continue, if and only if no forever loop starts with a continue |
| `Landing.ContinueLands` | compile/codegen.go:395-407 | A continue misses if and only if it is itself the instruction to go back to; it then jumps by its own address |
| `Astray.LeadingContinueGoesAstray` | compile/codegen.go:451-456 | Whatever is emitted for `x; forever { continue }` does not mean what the program means |
| `Astray.EmittedBytes` | compile/codegen.go:451-456 | The bytes emitted for that program are 12 k 1 54 0 3 54 255 250, where k is the slot of x |
| `Astray.CompileProgram` | compile/codegen.go:395-456 | The compiler accepts that program and emits those bytes |
| `Interp.Frame.Interpret` | core/interp.go:173-742 | Interpreting n opcodes in a frame is n steps of the byte machine, with the locals by name |
| `Execution.Execute` | core/interp.go:100-173 | Compiling and interpreting: if the function ends within n opcodes it ends as its source does, with the same value or panic and the same locals, and for every source that ends some n is enough |
| `CopyOnWrite.SharingIsInvisible` | core/suobject.go:102-129 | Under every interleaving of copies and mutations by threads on different objects, each object has the value it would have if every copy were made in full at once |
| `CopyOnWrite.TakeKeeps` | core/suobject.go:483-501 | Every step keeps: a counter stands for at most one object more than it says, objects that share memory have the same counter, and one changed in place is alone with its counter |
| `CopyOnWrite.WritesAlone` | core/suobject.go:483-501 | A write in place touches no memory of another object |
| `SuObject.SuObject.Set` | core/suobject.go:256-272 | Changes exactly one member; the version moves if and only if the key is new |
| `SuObject.SuObject.Erase` | core/suobject.go:309-328 | Removes exactly one member, without shifting others; the version moves if and only if there was one |
| `SuObject.SuObject.Delete` | core/suobject.go:283-304 | Removes one member, shifting the list members after it |
| `SuObject.SuObject.Insert` | core/suobject.go:463-481 | Inserts into the list or sets one member; the version moves if and only if the set of keys changes |
| `SuObject.SuObject.Migrate` | core/suobject.go:503-512 | Changes no member; afterwards no named key belongs in the list or next to it |
| `SuObject.SuObject.GetIfPresent` | core/suobject.go:173-178 | Finds a member wherever it is kept |
| `SuObject.OneWay` | core/suobject.go:256-328 | A map determines which members are in the list and which are named |
| `Packing.ByteOrder` | core/sudnum.go:156-214 | For all numbers x < y the bytes of x sort before those of y, if and only if they are not both negative with the same exponent and the digit bytes of y a proper prefix of those of x; otherwise they sort after |
| `Packing.OutOfOrder` | core/suint64.go:137-168 | The bytes of -100 sort before those of -101 |
| `Packing.RoundTrip` | core/sudnum.go:216-278 | Unpacking a packed integer of 64 bits gives a number of the same value, except that it panics for -9223372036854775800 |
| `Packing.DecimalRoundTrip` | core/sudnum.go:156-278 | Unpacking a packed decimal number gives one of the same value, whether as an integer or as a decimal |
| `Packing.Unpacked` | core/sudnum.go:216-278 | Unpacking the bytes of any number gives one of the same value, or panics, exactly if there are more than eight digit bytes and the number is not taken for an integer |
| `Packing.IntTaken` | core/sudnum.go:237-246 | An integer of 64 bits is taken for one if and only if the least integer and it are not a pair that the byte order reverses |
| `Packing.Canonical` | core/suint64.go:137-168 | An integer of at most sixteen digits has the same bytes as the decimal number of the same value |
| `Packing.SizeOrder` | core/sudnum.go:172-214 | Numbers compare by exponent and then by their digit bytes, and both are determined by the number |
| `Packing.PackInt` | core/suint64.go:137-168 | Produces the bytes of the integer's number: tag, exponent and the digits without trailing zeros, two to a byte |
| `Packing.PackSizeInt` | core/suint64.go:109-135 | The exact number of those bytes |
| `Packing.PackDecimal` | core/sudnum.go:156-214 | Produces the bytes of the decimal number |
| `Packing.PackCoef` | core/sudnum.go:177-213 | Stops exactly after the last pair of digits that is not zero |
| `Packing.UnpackInt` | core/suint64.go:170-193 | The value of the digits as a signed number of 64 bits, wrapping around |
| `Record.RoundTrip` | core/record.go:43-132 | A record built from fields within the limits has their count, its own length, and every field, with those outside reading as empty |
| `Record.WidthsAgree` | core/record.go:257-322 | The length, computed for some width of the offsets, stands for that same width, and fits into it |
| `Record.RecordBuilder.Build` | core/record.go:225-310 | Builds the record, or panics exactly if there are too many fields or the record is too long |
| `Record.RecordBuilder.Trim` | core/record.go:212-219 | Drops exactly the empty fields at the end |
| `Record.Truncate` | core/record.go:157-167 | Gives the record of the first n fields, trimmed, or the record itself if it has no more; never panics on a built record |
| `Record.TruncatedField` | core/record.go:153-167 | In a truncated record the fields below n are as before and the others are empty |
| `Record.TrimmedField` | core/record.go:211-219 | Trimming changes no field |

## Left out

- The checker's transactions are values found by their start time, not pointers: Read on the handle of a transaction that has been aborted returns false here, while the source returns true if the handle carries a read conflict.
- The nested map from tables to transactions to actions is one map from pairs.
- Ranges are sets of intervals; what util/ranges does when a range's end is below its start, and the number of ranges it merges, are not modelled (the change in their number is arbitrary).
- Whether a write set has room is arbitrary in the checker; `OrdSet` says when it has.
- The checker's record offsets, failure texts, outstanding counter, database states, the corrupted-database path of commit, 64-bit wrap-around of the sequence counter, and the queue and channels of checkco.go.
- Of the language: calls, blocks, try and catch, multiple assignment and return, dynamic variables, members and ranges of objects, for-in, ranges in `in`, classes, coverage and source positions.
- What the primitive operations compute is a parameter, so that arithmetic, comparison and concatenation of values are not modelled; equality of constants in the table of values is equality of values here.
- The operand byte that emitMore appends to LoadStore is emitted together with it.
- Ast.Eval: `x in ()` does not evaluate x, and a difference in a sum is a subtraction and not an addition of a negation, as the compiler has it and not the syntax tree. A product is evaluated in the order of the source's own evaluator of syntax trees; `Products` compares it with left to right. Rounding of decimal numbers and division by zero are not part of that comparison.
- The parser's promises that parameters are distinct and that each case has an expression are taken for granted (`Execution.Execute` requires the first, the second is built into the syntax tree).
- CopyOnWrite: an object without a counter is one with a counter of zero; default values, read-only objects and the overflow of the counter are not modelled.
- SuObject: keys that equal an integer are integers; the hash map is a map; sizes below 2^32; default values, concurrency and locking are not modelled.
- Packing: infinities are not packed or ordered here, and unpacking strings of more than 66 bytes, where the source's lengths of 8 bits wrap around, is as if they did not; no packed number is that long.
- Record: a field is the bytes it packs to, and an empty string packs to none.
- Packed objects, strings and dates, deep equality, string concatenation and record rules (core/pack.go, core/sudate.go, core/deepequal.go, core/suconcat.go, core/surecord.go).
