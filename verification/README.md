# Noded

Noded is a small language of concurrent processors. Each `processor` block is compiled in a single pass to bytecode
for a stack machine; a small VM runs all processors, which talk to each other over rendezvous wires and to buffers,
stacks and the standard streams. This project models the compiler, the VM, the loader that connects them, and the
disassembler, and proves what they promise. It is checked with

    dafny verify dfyconfig.toml

**The VM** is modelled twice. `Machine` and `Network` give one tick as a function of a processor and of the whole
state; `Vm` has the same tick as methods on shared objects (wires, buffers, stacks, registers), proved to be that
function. A schedule is any sequence of processors. `Rendezvous` has the invariant of all schedules, `Delivery`
exactly-once in-order delivery, `Scheduler` the loops of `run_proc` and `run` and why they stop only when nothing
can move, `Confluence` independence from the schedule, `Wiring` what `add_wire` builds. `Arithmetic` says what the
operators compute, from counting up, doubling and single bits, and `Devices` what stacks, buffers and streams
promise over sequences of sends and receives.

**The compiler** is modelled as it is written: `Compiler.Context` has the fields of the C context, and its methods
are the parselets, the jump and patch helpers and the statement parsers, appending to one byte buffer and patching
it. They are proved against three definitions that know nothing of each other: the parser of `Pratt`, which only
yields trees; the two-pass assembler of `CodeGen` and `Assembler`, which only turns trees into code, all addresses
known in advance; and the evaluators of `ExprMeaning` and `StmtMeaning`, which only say what trees mean. `Printer`
and `Shortest` relate the parser to a printer with as few parentheses as any, and `Grouping` to a list of levels;
`Equations` has laws between expressions and `BigStep` a second meaning of statements, both without any code;
`Behaviour` relates whole runs of source and code; `Depth`, `Heights` and `StackDepth` give the stack depth and the
instruction boundaries. `Backpatch`, `Stability`, `Emission`, `Assembly`, `StmtParse` and `Resolve` hold the lemmas
between the compiler and its specification.

**The program** as a whole: `Declarations` has the two readings of the declarations, `Programs` what they build,
`Wires` what is wired to what and which node is what, by name, `Loader` noded's passes and main program, `Startup`
the proof that what is built meets the demands of the theorems about the VM, and `Processors` the theorem in which
both halves meet. `Dict`, `Vec` and `Literal` are the symbol table, the vectors and the string literals below them,
`Disassembler` is nodedc's walk. `Hello` has a program that meets all demands of the next section, `Demos` and
`CatProgram` run it and `examples/cat.nod` to their ends, and `SourceExamples` has `examples/change-case.nod` and
`examples/truth-machine.nod`.

## What is demanded of a program

The theorems about a running VM ask for what the language demands but noded does not check: each processor port is
on exactly one wire; a wire between processors is used in one direction, and no port for both; no wire joins a node
to itself; a body is not empty (an empty one gives size 0, and `tick` reads the first byte all the same, vm.c:376)
and needs at most 512 bytes of stack. `Network.WellWired`, `Wiring.SingleWire`, `Wiring.OneWay` and
`StackDepth.Runnable` say so, and `Programs.WellFormed` puts them together. Schedule independence asks in addition
that no two processors share a buffer, a stack or the IO node's streams. Ports that are used but not wired are not
excluded: a tick at one ends the VM (`StackDepth.PortFault`).

## Where the code is repaired

- `pop_scope` frees the enclosing scope instead of the popped one (compiler.c:370-371), so a loop inside a loop goes
  on with freed memory: `while (a) { while (b) ; break; }`. In `Compiler.Context.PopScope` the popped one is
  released.
- A fresh `Label` has only its `id` set (compiler.c:383-391); `defined` and `gotos` are indeterminate, for any body
  with a label or a goto, such as `{ l: goto l; }`. In `Compiler.Context.FindLabel` it is undefined and has no gotos.
- `CodeBlock.size` has 8 bits (noded.h:239) and is given 16 (compiler.c:1052), so code of 256 bytes or more is cut
  down, say that of a loop with 86 `break` statements. In `Compiler.CodeBlock` the size is that of the code;
  `Disassembler.StoredSizeIff` says exactly when the stored one is.
- `copy_proc_node` takes the data of any node for a processor's (vm.c:134-140), so `processor p = io;` follows a
  null pointer. In `Loader.ScanCopy` copying anything but a processor is an error.
- `do` outside a loop follows a null pointer for its test (compiler.c:923-933). In `Compiler.Context.DoJump` it is an
  error.
- The symbol of a goto and the reserved jump (compiler.c:403-410) are evaluated in an order that C leaves open; here
  the symbol comes first.

On bodies without a loop in a loop, without labels and gotos and with less than 256 bytes of code, the repaired
compiler is the C one.

## Where the code departs from its description

The model follows the code. The post clause of a `for` ends in a jump to itself, and its condition is tested once
(`Departures.ForStaysInPostClause`). A `do` never repeats its body of its own (`Departures.DoTestLeaves`). `?:` is
compiled as eager `(c && a) || b` (`ExprMeaning.CondIffConditional`, `ExprMeaning.CondDeparts`). Comparisons and
`!` yield 0xFF for true, and `&&` and `||` yield one of their operands, both evaluated. A postfix operator under a
prefix operator needs parentheses, as its precedence is not less than itself. Between `?` and `:` operators as
loose as `?:` itself are read. String literals have no escape for the backslash. A label is a statement of its own.
Arithmetic is on bytes modulo 256; a division by zero (section 6.5.5 of ISO C99), a shift by 32 or more and a left
shift out of the range of a 32-bit `int` (section 6.5.7) are explicit stuck cases. As C leaves the signed overflow
of a left shift undefined, counts below 24 are always defined (`Bytes.ShiftsBelow24`).

## Model

| member | source | states |
|---|---|---|
| Vm.WireCell.Send | vm.c:190-209 | send_proc on a wire: an empty wire is filled and the sender must retry, a full one is left alone, and a CONSUMED one lets the sender pass and becomes empty; exactly the outcomes of the handshake that the network model is built from |
| Vm.WireCell.Recv | vm.c:211-228 | recv_proc: only a FULL wire hands over its byte, once, and becomes CONSUMED; otherwise nothing changes |
| Vm.BufNode.Send | vm.c:269-286 | A buffer takes an index on one port and a byte at the current index on the other; any other port is an error |
| Vm.BufNode.Recv | vm.c:288-305 | Reading a buffer yields its index or the byte there and changes nothing |
| Vm.StackNode.Send | vm.c:307-315 | A stack node keeps what it is sent behind everything that it holds |
| Vm.StackNode.Recv | vm.c:317-329 | A stack node gives back the byte behind all others and keeps those; an empty one gives nothing |
| Vm.ProcNode.Push | vm.c:346-353 | A push succeeds below 512 bytes, on top of an otherwise unchanged stack; at 512 the VM ends |
| Vm.ProcNode.Pop | vm.c:355-362 | A pop takes the topmost byte and nothing else; on an empty stack the VM ends |
| Vm.ProcNode.PeekTop | vm.c:364-371 | The topmost byte, without popping it; on an empty stack the VM ends |
| Vm.ProcNode.Execute | vm.c:380-491 | The instructions without a port do, on isp, sp, stack and variables in place, what the pure tick of Machine.Peek does, and end the VM exactly where that crashes: underflow, overflow, division by zero, oversized shifts; what the operators compute is in the rows of Arithmetic |
| Vm.Vm.AddProcNode | vm.c:120-132 | A processor is added behind the others with empty registers and no wires, unless the counted capacity is used up |
| Vm.Vm.CopyProcNode | vm.c:134-140 | A copied processor has its source's code, and registers and ports of its own |
| Vm.Vm.AddBufNode | vm.c:142-150 | A buffer node is added with its own copy of the 256 bytes |
| Vm.Vm.AddStackNode | vm.c:152-158 | A stack node is added empty |
| Vm.Vm.AddWire | vm.c:168-188 | One wire object, empty, is linked into the processors at its two ends, each port pointing to the other; no node shares an object with another |
| Vm.Vm.SendPort | vm.c:332-337 | What a send reaches is decided by the type of the node at the other end, and only that node's state or that wire changes; what the devices do with it, and which of them a name means, is in the rows of Devices and Wires |
| Vm.Vm.RecvPort | vm.c:339-344 | The same for a receive; a receive that finds nothing changes nothing |
| Vm.Vm.Tick | vm.c:373-523 | The imperative tick on shared objects is the network step: it returns true exactly for progress, false after an offer or when blocked, and ends the VM exactly where the step crashes |
| Vm.Vm.RunProc | vm.c:525-530 | The loop around tick is the scheduler's RunProc, cut off after `fuel` further ticks |
| Vm.Vm.Run | vm.c:532-542 | The sweeps over all nodes are the scheduler's Run: when the method returns, its state is the one that the theorems about Run speak of |
| Arithmetic.Sums | vm.c:445-447 | x + y is x counted up y times, 255 being followed by 0 |
| Arithmetic.Differences | vm.c:448-452 | x - y is what counts up to x in y steps |
| Arithmetic.Negations | vm.c:394-396 | -x counts up to 0 in x steps |
| Arithmetic.Products | vm.c:453-455 | x * y is y times x, added up one after the other |
| Arithmetic.QuotientsAndRemainders | vm.c:456-465 | Both are undefined exactly for a divisor 0; otherwise quotient times divisor plus remainder is the dividend, and the remainder is less than the divisor |
| Arithmetic.LeftShifts | vm.c:435-439 | Defined exactly for counts below 32 whose result, doubled that often, stays below 2^31; a shift by one more adds the result to itself |
| Arithmetic.RightShifts | vm.c:440-444 | Defined exactly for counts below 32; a shift by one more halves |
| Arithmetic.BitByBit | vm.c:400-421 | The bitwise operators and ~ act on each of the eight bits alone, as or, and, xor and not |
| Arithmetic.BitsTell | vm.c:413-421 | Eight bits determine a byte, so bit-by-bit laws leave nothing open |
| Arithmetic.Comparisons | vm.c:422-434 | Comparisons yield 0xFF or 0; nothing is less than 0, less than the next is less or equal, and <= is less or equal |
| Arithmetic.Connectives | vm.c:397-412 | ! is == 0; the logical or yields its first operand unless that is 0, the logical and yields 0 or its second operand, and ! turns one into the other |
| Devices.ReceiveUndoesSend | vm.c:307-329 | A receive from a stack node gives back the byte sent last and leaves the stack as before that send |
| Devices.LastInFirstOut | vm.c:307-329 | Any sequence of bytes sent to a stack node comes back in reverse, whatever lies below |
| Devices.BufferIsMemory | vm.c:269-305 | A buffer is 256 cells: what is stored through the ports called idx and elm is read back there and nowhere else, and an index sent to idx is read back from it |
| Devices.StreamsInOrder | vm.c:230-267 | Through the port called in, standard input arrives front to back and then nothing arrives; through out and err what is written is kept in order; neither works the other way |
| Rendezvous.WireTick | vm.c:190-228 | The three-state handshake as seen by the whole VM, for every state of the wire and both directions |
| Rendezvous.AfterInv | vm.c:492-511 | Every tick of every processor, in any order, keeps the wiring, well-formed registers, isp on instruction starts, and the coupling of each filled wire with its parked sender |
| Delivery.ExactlyOnceInOrder | vm.c:190-228 | In every reachable state of every interleaving the bytes received from a wire are the bytes whose send completed, in order, followed by the buffered one exactly while the wire is CONSUMED |
| Delivery.RendezvousCoupling | vm.c:492-501 | In every reachable state a FULL or CONSUMED wire has exactly one processor standing at the SEND that filled it, with the buffered value still on top of its stack |
| Delivery.SendCompletesWhenTaken | vm.c:190-209 | A send on a wire completes only once its value was taken, and the value popped is the value that was taken |
| Confluence.NeverBoth | vm.c:190-228 | Of the two ends of a wire at most one can move it at a time |
| Confluence.Diamond | vm.c:373-523 | Two enabled ticks of different processors commute when buffers, stacks and streams are not shared |
| Confluence.ScheduleIndependence | vm.c:525-542 | If some interleaving ends, every other one is no longer, runs into no error, and completes to the same final state; one that cannot go on is in that state already |
| Confluence.RunFindsTheEnd | vm.c:532-542 | run returns with a state, given enough rounds, if and only if some interleaving ends in that state with every processor blocked or halted |
| Scheduler.OthersStaySettled | vm.c:190-209 | A tick of one processor never leaves another in front of an empty wire it could still fill: the invariant that makes the return value false trustworthy, although send_proc fills a wire while reporting no progress |
| Scheduler.SweepSettles | vm.c:536-541 | A sweep that reports no progress has changed nothing and found every processor blocked |
| Scheduler.TrueQuiescence | vm.c:532-542 | Whenever run returns, no processor can ever move again and no wire is CONSUMED |
| Wiring.PortsFollowJoints | vm.c:160-188 | After any sequence of add_wire calls under the single-wire rule each port is linked exactly as the one call says that names it, and not at all if none does |
| Wiring.SymmetricAndAliasFree | vm.c:168-188 | Two linked processor ports point at each other and at one wire, and no third port refers to that wire |
| Wiring.BuildsWellWired | vm.c:168-188 | Single wires used in one direction, no self-loops and code that cannot be left are all that the theorems about the VM demand |
| Processors.RunsAlone | vm.c:373-523 | In every reachable state of every interleaving each processor stands where its code gets to when it runs alone on the bytes it received, with the same port actions |
| Processors.ProcessorsMeanTheirSource | vm.c:373-523 | ... so when its code was compiled, some number of source steps on those bytes accounts for its port actions so far |
| Processors.SourceToSource | vm.c:492-511 | Whatever the interleaving, the bytes one processor has taken in on its end of a wire are those the other has put out on its end, followed by the one in the wire while it is CONSUMED |
| Printer.ExprRoundTrip | compiler.c:737-767 | Every expression tree, written with parentheses only where precedence and associativity demand them, is parsed back as itself from exactly its tokens |
| Grouping.ChainGroups | compiler.c:737-767 | For every chain of operands and operators, of any length: the parser makes the tree that splits at the loosest operator, the last of several or the first if they group to the right, and so on in both parts; levels are a list of operator sets, operands may carry prefix and suffix operators, and `?:` is one of the operators |
| Grouping.ThreeOperands | compiler.c:50-69 | For any two neighbouring operators: a o1 b o2 c is a o1 (b o2 c) if and only if o2 is on a tighter level, or both are assignments or both `?:` |
| Grouping.QueryMiddle | compiler.c:683-707 | Between ? and : any chain of operators no looser than ?: itself is read as one operand; with a looser one, such as an assignment, the expression is an error |
| Grouping.OnLevel | compiler.c:108-150 | The level of each operator is its place in the parse table, and no operator is on two levels |
| Printer.BodyRoundTrip | compiler.c:961-1014 | Every readable body is parsed back as itself from exactly its tokens |
| Printer.ParsedIsReadable | compiler.c:832-843 | Whatever parses is readable: an else always goes to the nearest if |
| Shortest.ShortestExpr | compiler.c:737-767 | Nobody needs fewer parentheses: any tokens parsed as a tree at some precedence are at least as many as the printer writes for it there. With it, a postfix operator under a prefix operator needs parentheses |
| Compiler.Context.GetVar | compiler.c:229-250 | A variable's slot is its place in the order of first use; the fifth name is an error |
| Compiler.Context.GetPort | compiler.c:206-227 | The same for ports |
| Compiler.Context.AsmValue | compiler.c:279-298 | A value is completed by loading a variable where it was only named; ports and sends have no value |
| Compiler.Context.ParseExpr | compiler.c:737-767 | parse_expr with all its parselets: it succeeds exactly on tokens that parse and compile without an error, consumes exactly the tokens of the tree, and appends exactly the tree's left-to-right postorder code; which trees those are is in the rows of Grouping and Printer |
| Compiler.Context.Prefix | compiler.c:446-497 | Unary operators and pre-increments: accepted exactly when the tree is legal, with exactly its code |
| Compiler.Context.BinaryP | compiler.c:546-619 | Infix operators, three of them compiled as negations of their duals |
| Compiler.Context.OpAssignP | compiler.c:635-680 | Compound assignments load before their right operand is compiled |
| Compiler.Context.SendP | compiler.c:499-534 | Sends between ports, values and variables, in the combinations that the language has |
| Compiler.Context.PatchHere | compiler.c:308-313 | Exactly the two reserved bytes change, to the current address |
| Compiler.Context.AsmJump2 | compiler.c:323-330 | A jump with an open operand: two reserved bytes of any content behind the opcode |
| Compiler.Context.PopScope | compiler.c:358-372 | Every open break of the innermost loop, and no other byte, gets the address behind the loop (repaired: the popped scope is released, not its parent) |
| Compiler.Context.FindLabel | compiler.c:374-392 | A label is found by its symbol or entered, undefined and without gotos (repaired: the C code leaves those fields unset) |
| Compiler.Context.AddLabelHere | compiler.c:394-401 | The last definition of a label counts |
| Compiler.Context.AsmGoto | compiler.c:403-410 | A goto records one open jump under its label |
| Compiler.Context.ParseIfStmt | compiler.c:816-844 | if and if-else: accepted exactly when the tree compiles, with the assembled code but for the operands still open |
| Compiler.Context.ParseWhileStmt | compiler.c:893-912 | The same for while, its own breaks closed and none of an enclosing loop's |
| Compiler.Context.ParseForStmt | compiler.c:846-891 | The same for the code that is emitted for `for` |
| Compiler.Context.ParseDoStmt | compiler.c:914-937 | The same for the code that is emitted for `do`; outside a loop the C code follows a null pointer, here that is an error |
| Compiler.Context.ParseStmt | compiler.c:961-1014 | The dispatch over all statements |
| Compiler.Context.ResolveGotos | compiler.c:1025-1037 | All gotos are filled in, and an error is reported exactly if some label gone to is never defined |
| Compiler.Compile | compiler.c:1016-1054 | Backpatching is a two-pass assembler: compile succeeds exactly on bodies that parse and are Compilable, and the buffer that one pass and all its patches leave is then byte for byte the assembled program, with every address known in advance (with the three repairs named below) |
| Backpatch.HoleWants | compiler.c:343-372 | Every hole of a statement stands where the assembled code has an operand, and that operand is the end of its own loop or the address of its label |
| Resolve.Resolved | compiler.c:1025-1037 | When all labels are defined, filling in the gotos leaves no byte open |
| Resolve.AllDefinedIff | compiler.c:1025-1037 | The table has only defined labels if and only if every goto of the body has a label |
| ExprMeaning.ExpressionPreserved | compiler.c:281-298 | Wherever the value code of a legal tree stands, running it pushes exactly the evaluator's value and leaves exactly its variables, input and port actions, or stands for lack of input or at the undefined operation where the evaluator does |
| ExprMeaning.ExpressionStatementPreserved | compiler.c:950-959 | The same for an expression statement, which leaves the stack as it was |
| ExprMeaning.CondIffConditional | compiler.c:683-707 | The exact condition, for operands without effects, under which the eager `?:` is the conditional of section 6.5.15 of ISO C99 |
| ExprMeaning.CondDeparts | compiler.c:683-707 | Three inputs where it is not: a wrong value, an effect of the operand not chosen, and a guarded division that stops the processor |
| Equations.Signs | compiler.c:446-497 | -a, !a and ~a are 0 - a, 0 == a and 255 ^ a for every operand, effects included, and +a is a |
| Equations.Duals | compiler.c:574-591 | a != b, a > b and a >= b are !(a == b), !(a <= b) and !(a < b) for all operands |
| Equations.CompoundAssignment | compiler.c:635-680 | $x op= e is $x = $x op e for every e, also one that changes $x |
| Equations.Steps | compiler.c:709-735 | ++$x is $x += 1; $x++ does the same and yields what was there before |
| Equations.CondIsAndOr | compiler.c:683-707 | c ? a : b is the logical or of c && a and b, for all operands |
| Equations.PrefixValues | compiler.c:446-497 | From tokens to values: !n is 0xFF or 0, -n and n add up to 0, ~n has the other bits, +n is n |
| StmtMeaning.StepSimulated | compiler.c:769-844 | Every step of the source of a body without for and do is done by finitely many ticks of its code, with equal variables, input and port actions, restart at the top included; steps that wait, fail or halt do so in the code |
| BigStep.StepsReachEffect | compiler.c:769-844 | Told without steps and without anything left to do, a statement without goto has the same effect: it comes through, breaks, goes on with the next round, halts, waits or fails where its steps do, in front of whatever is left to do |
| SourceExamples.ChangeCaseAnswers | examples/change-case.nod:1-12 | For every input the program puts out each byte in the other case, letters only, one after the other, and waits for more |
| SourceExamples.FalseHalts | examples/truth-machine.nod:1-20 | After the byte '0' the program halts and has put out nothing |
| SourceExamples.TrueShouts | examples/truth-machine.nod:1-20 | After any other byte it puts that byte and a line end out, any number of times |
| Behaviour.CodeDoesAll | compiler.c:1016-1054 | Wherever a run of the source gets to, its code gets to in finitely many ticks, with an empty operand stack |
| Behaviour.CodeDoesNothingElse | compiler.c:1016-1054 | After any number of ticks the port actions of the code are a beginning of the source's |
| Departures.ForStaysInPostClause | compiler.c:873-880 | Once a `for` has come to its post clause, execution stays inside that clause for ever: the condition is tested once and the body is run at most once |
| Departures.DoTestLeaves | compiler.c:923-933 | The test of a `do` goes to `continue` of the loop around it when it holds and behind the `do` when it does not; it never repeats the body itself |
| Depth.ProgramSturdy | compiler.c:950-959 | Every compiled body has code that needs no more stack than it has, is at depth 0 behind every jump, and jumps only to the seams between its statements |
| Depth.CompilableIff | compiler.c:1025-1054 | A body compiles if and only if its statements have no error, it has at most four variables and four ports, every goto has a label, and its code has at most 65535 bytes |
| Heights.HeightExact | compiler.c:412-735 | The static height of an expression is exact: its code, started at any depth, keeps within a bound if and only if there is room for the height |
| Depth.SturdyClosed | compiler.c:301-330 | Instruction-boundary safety: every jump operand decodes to an instruction start or the code's end, and execution cannot leave the instruction starts |
| StackDepth.CompiledClosed | compiler.c:1025-1054 | Compiled code is closed in that sense, as the theorems about the VM demand |
| Hello.UsesAreInstructions | vm.c:492-511 | A compiled processor sends on a port, or receives from it, if and only if its code has that instruction: what the wiring theorems ask for can be read off the code |
| StackDepth.DepthSound | vm.c:346-371 | In every reachable state of every interleaving of compiled processors each stack has the static depth of its address, is empty at the seams and never exceeds the expressions' maximum; so no tick under- or overflows, and one can end the VM only at an undefined operation or a port without a partner |
| Disassembler.Disasm | nodedc.c:13-42 | The loop prints exactly the lines of the walk, and fails only where the walk would read outside the code or the table of names |
| Disassembler.EncodedByName | compiler.c:152-204 | Every instruction is encoded with the opcode that the table of names calls by its name, followed by its operand, of two bytes the low one first |
| Disassembler.DisassemblyAgrees | nodedc.c:13-42 | On every compiled block, its size kept at 16 bits, the walk lists exactly the emitted instructions, each at its address, and ends exactly at the size |
| Disassembler.ReassembleListing | nodedc.c:13-42 | From the lines of any block that is listed to its end, compiled or not, its bytes can be read off |
| Disassembler.ReachedIsListed | vm.c:373-523 | Wherever a compiled processor stands, in every reachable state of every interleaving, the disassembler lists the instruction it executes next |
| Disassembler.StoredSizeIff | noded.h:236-243 | With the size as it is stored, in 8 bits, the listing is complete if and only if there are fewer than 256 bytes of code |
| Dict.SymDict.SymId | dict.c:16-37 | A name is found or entered at the end; its number is its place |
| Dict.SymDict.IdSym | dict.c:38-44 | The inverse of sym_id |
| Dict.NumbersAreNames | dict.c:16-44 | Through any sequence of lookups a name keeps its number, the number gives back the name, and two names share a number exactly when they are equal |
| Programs.SlotsAreNames | compiler.c:206-250 | Within a processor two names of a kind share a slot if and only if they are equal |
| Programs.FoundPortIsEmitted | noded.c:43-52 | find_port returns the slot that the processor's SEND and RECV instructions for that port have, for compiled and copied processors |
| Wires.JointJoins | noded.c:247-280 | A wire declaration joins the first node of each name, each at the first port of the name given with it |
| Wires.JoinsIsJoint | noded.c:247-280 | ... and is an error only when there is no such joint with a processor at one end |
| Wires.WiredAsDeclared | noded.c:229-281 | In the VM of a whole program on single wires: for each declaration a.p -> b.q the slot that a's instructions for p use is linked to b, at the slot that b's instructions for q use, and the other way round, by one wire |
| Wires.LinksAreDeclared | noded.c:229-281 | ... and every link of every processor is an end of a declared wire |
| Wires.StreamWired | noded.c:359-372 | A processor wired to io.in, io.out or io.err has its slot for that port linked to the standard input, output or error, and io has no other ports |
| Wires.StoreEnd | noded.c:176-227 | A link to a buffer or stack reaches that node's data, at the port of the name: elm or idx for a buffer, elm for a stack |
| Wires.DeclaredNode | noded.c:131-227 | Each other declaration is one node, in order: a processor with its body's code, a copy with the code and ports of the first node of its source's name, a buffer at index 0 with the bytes of its text, an empty stack |
| Wires.BufferShows | parse.c:160-186 | Through idx and elm a declared buffer shows the bytes that its literal spells, cell by cell, and zeros behind them |
| Wires.StreamsStart | noded.c:351-372 | run finds the whole standard input still to be read, and nothing written |
| Programs.DeclSound | noded.c:132-281 | After every declaration rules[i] describes nodes[i]: its ports are those of its code, and a copy's those of its source |
| Declarations.SkipBlock | noded.c:59-92 | The brace-counting loop, or the end of the file as an error |
| Declarations.CountPass | noded.c:314-345 | The first pass counts one node or one wire for each declaration it skips |
| Declarations.DeclSkipped | noded.c:59-123 | Whatever declaration the compiling pass accepts, the skipping pass accepts, and both consume the same tokens |
| Declarations.DeclRoundTrip | noded.c:131-255 | Every declaration is parsed back as itself, name for name, from exactly its tokens |
| Declarations.ProgramRoundTrip | noded.c:374-395 | ... and so is every program |
| Declarations.ProgramCounted | noded.c:314-345 | For a whole program the counts are exactly its wires and its other declarations |
| Programs.PassesAgree | noded.c:314-388 | On a program that is built without an error the first pass counted exactly the nodes and wires that the second adds |
| Loader.FindRule | noded.c:30-41 | The first rule with the symbol, or none when there is none |
| Loader.FindPort | noded.c:43-52 | The first port with the symbol, or none |
| Loader.ScanBody | noded.c:131-148 | A processor declaration is accepted exactly when its body compiles; node and rule are added together |
| Loader.ScanCopy | noded.c:154-170 | A copy is accepted exactly when its source is a processor declared before (the C code takes other nodes for processors) |
| Loader.ScanBuffer | noded.c:176-203 | A buffer declaration is accepted exactly when its literal decodes to at most 256 bytes |
| Loader.ScanStack | noded.c:205-227 | A stack declaration |
| Loader.ScanWire | noded.c:229-281 | A wire declaration is accepted exactly when both ends exist and one is a processor; the joint it adds is the one of Programs.BuildDecl, and what that joins is in the rows of Wires |
| Loader.BuildPass | noded.c:374-395 | The second pass builds exactly what the declarations say, and the capacities counted by the first always suffice |
| Loader.Load | noded.c:283-395 | Both passes: a program is accepted exactly when its declarations can be built, and the VM then holds them |
| Loader.Noded | noded.c:283-398 | The whole program: when the wiring is as the language demands and run returns, the VM truly stands still |
| Startup.ProgramInitial | noded.c:351-395 | Every program that can be built starts in a valid VM, and, with single one-way wires and runnable bodies, in a state that meets every demand of the theorems above |
| Startup.ProgramMeansItsSources | noded.c:283-398 | From program text to port actions: in every interleaving every processor, copies included, does what its body means on the bytes it received |
| Hello.HelloIsWellFormed | noded.c:283-398 | The demands on a program can be met: a one-processor program on a wire to standard output is built and well formed |
| Demos.HelloRuns | noded.c:283-398 | Run to its end, that program has written its one byte to the standard output and nothing to the standard error, has read nothing, and stands still |
| CatProgram.CatCopies | examples/cat.nod:1-10 | From its tokens to its output: for every input, run on the loaded program ends with exactly that input on the standard output, nothing on the standard error, and nothing that can move |
| CatProgram.CatAnyOrder | examples/cat.nod:1-10 | ... and so does every other interleaving that gets to where nothing can move |
| Vec.Vector.Append | vec.c:17-26 | The element is added behind the others, whether the block has to grow or not |
| Vec.Vector.Reserve | vec.c:29-43 | The old elements stay and the reserved ones may be anything; the returned index is the old length |
| Vec.Vector.Shrink | vec.c:46-52 | Nothing but the capacity changes |
| Vec.LinearCost | vec.c:17-43 | Any sequence of appends, reserves and pops keeps the length within the capacity and copies at most two elements for each one added |
| Literal.ScanString | scanner.c:385-414 | The literal ends at the first quote that has an even number of backslashes before it, if that is no more than 1024 characters away; otherwise it is too large, a missing quote included |
| Literal.ParseString | parse.c:160-186 | The 256 bytes are filled with what the text decodes to, and zeros, also when an error ends the decoding |
| Literal.TextDecoded | parse.c:35-186 | Up to 256 bytes, each spelled raw, in hexadecimal digits of either case, as one digit behind a blank or a sign, in octal or by a short escape, are decoded to those bytes; more are an error |
| Literal.EscapeSpelled | parse.c:35-125 | There are no other escapes: whatever is read as one is a spelling of the byte it is read as |
| Literal.LiteralRoundTrip | scanner.c:385-414 | Written between quotes such a literal is never too large, takes exactly 1024 characters for 256 bytes in hexadecimal, and comes back as its bytes |

## Left out

- StmtMeaning.StepSimulated: bodies with `for` or `do` are excluded (`Structured`), because their code does not do what the language describes; what it does do is in `Departures`, and both are covered by the round trip, the backpatching, the stack-depth and the boundary theorems.
- Behaviour.CodeDoesAll: the same bodies are excluded, and so are bodies that emit no code or need more than 512 bytes of stack.
- Processors.ProcessorsMeanTheirSource: accounts for port actions at any moment, and does not claim that a processor gets on: one busy processor starves the others in `run_proc` (vm.c:528).
- Confluence.ScheduleIndependence: is not claimed when processors share a buffer, a stack or a stream, where the order of their accesses shows; delivery and quiescence are claimed all the same.
- Vm.Vm.Run: `run` and `run_proc` may not end, so their loops are cut off after a number of rounds that the caller gives; `Confluence.RunFindsTheEnd` says that enough rounds exist exactly when some interleaving ends.
- Vm.StackNode.Send: the node's items are a sequence; the growth of the underlying vector is modelled apart, in `Vec`.
- Compiler.Context.AsmJump2: the code buffer, the patch lists and the tables of a context are sequences; their growth is modelled apart, in `Vec` and `Dict`.
- Compiler.Context.ParseStmt: an error ends the compilation; the resynchronisation that looks for more errors, and the messages, are not modelled, so of a program with errors only its rejection is stated.
- Compiler.Context.Primary: the compiler works on tokens; scanning comments, identifiers, numbers and characters, keyword lookup and positions are left out, except for string literals.
- Loader.Load: files are token lists that are read twice; standard input is a finite sequence followed by the end of the file for ever, standard output and error are sequences that grow.
- Literal.ParseString: characters are bytes, and the text has no zero byte inside.
- Running out of memory, and freeing memory other than as named above.
