# REXX370: compiler, virtual machine, arithmetic and registry, modelled and proved

The program is a REXX interpreter. It reads a token array, compiles it in one pass to bytecode, and runs the bytecode on a
stack machine; numbers are decimal, in digit arrays; environments are entered in a table shared by an address space. This
project models those four parts in Dafny and proves what they are for. `dafny verify dfyconfig.toml` checks all of it.

**Compiler and virtual machine.** `Tokens`, `ExprSyntax` and `StmtSyntax` say which trees the recursive descent reads.
`ExprGrammar` and `StmtGrammar` say the same without a parser, as a precedence grammar over token phrases and as texts of
statements, and prove the two equal; `Spellings` lists how every operator is written and says what a literal is.
`ExprCode` and `StmtCode` give the code of a tree; a jump to the end of a block that is still open is a hole in it. The class
`Compiler` is the one-pass compiler as the program has it: it appends bytes, patches jumps in place, interns constants and
symbols, keeps the control stack of open blocks and the trace map, and every method is proved to leave exactly the code and
the tables the tree asks for (`ExprEmit`, `CallEmit`, `CompilerState`, `DoState`, `StmtEmit`, `SelectEmit`, `DoEmit` and
`Patching` hold the lemmas). `Nesting` is about the compile-time nesting counter. `CoreVm` is one instruction;
`CacheRefinement`, and `MachineCaches` over calls, returns and traps, show that the integer cache changes nothing that can be
seen; `StmtSemantics` is a big-step interpreter over trees, and `Placement`, `LoopParts`, `Simulation` and `Programs`
prove that running a statement's code is executing the statement. `Activation` adds calls, `PROCEDURE`, `SIGNAL` and traps,
`CallRuns` what the code of a call does; `Isolation` and `Exposing` say what a callee leaves alone and what it shares,
`Conditions` where an error goes; the class `Vm` of `VirtualMachine` is the dispatch loop over arrays that refines it.
`EndToEnd` and `Execution` put both ends together.

**Arithmetic.** `Numbers`, `AddSubMul`, `Division`, `ArithOps`, `Comparison`, `NumberText` and `NumberWriter` are the engine
on digit arrays in place; `Positional` and `Decimal` are the numbers it is proved against. `NumberGrammar` and
`NumberShape` say which texts are numbers and which text a number has, `BestDecimals` what correct rounding is, and `Operators`
and `Prefixes` what the VM's operators answer, without the functions that compute it. `WholeNumbers` says what the
operators mean on whole numbers, `IntegerFastPath` that the VM's int32 shortcut returns what the engine returns.

**Conversions.** `ByteDigits` and `Conversions` are C2D, X2D, D2C and D2X down to the multiply-by-256 and divide-by-256 loops;
`ByteOrder` says where each byte and digit stands.

**PARSE.** `ParseMachine` is the scan pointer and its triggers, `ParseTemplates` how a template becomes instructions,
`ParseResults` what a run does to the source and to the variables.

**Registry.** `Registry` is the environment table, proved against a log of registrations.

## What turned out not to hold

Each of these is a property one might expect. The code is modelled as it is; the member named shows an input or a program that
fails, or states exactly when the property holds.

- A second PROCEDURE in one activation is not refused, and overwrites what RETURN and SIGNAL go back by. Pools and activations
  match through a run if and only if it never happens (`Isolation.MatchExactly`); `Isolation.TwiceReturns` and
  `Isolation.TwiceSignals` run a program that ends in the wrong pool either way.
- D2C without a length keeps 504 bytes and D2X 1008 digits: the number comes back if and only if it is smaller
  (`Conversions.UnsignedC2DOfD2C`, `Conversions.UnsignedX2DOfD2X`); `Conversions.BytesAreLost` is 1E1400.
- Several words before a PARSE pattern do not follow the language's rule, the words being taken first: they do if and only if
  the words end before the pattern's first occurrence (`ParseResults.WordsBeforePattern`); `ParseTemplates.WordsOvertake` is
  `v1 v2 ','` over `a,b c`. An empty pattern cuts nothing and the target in front of it is never
  assigned (`ParseTemplates.EveryTargetOnce`, and `ParseTemplates.EmptyPatternDrops` for one template); from the seventeenth
  target of a section on nothing is assigned either (`ParseTemplates.WordTemplate`).
- Joining by a delimiter and taking apart again gives the parts back if and only if no part meets the delimiter early
  (`ParseTemplates.DelimiterTemplate`).
- Stack growth is not bounded by the nesting counter's peak plus two once a comma continues the line: `Nesting.CommaTakesThree`
  peaks at 0 and takes three cells. It is if and only if every later segment leaves a cell of that for the text in front of it
  (`ExprSyntax.ExprDepth`). The bound in all is 37, 38 with such commas, so 42 is never reached.
- A text like 1E, a power of ten without digits, is a number (`NumberGrammar.PowerWithoutDigits`).
- Prefix plus is not 0 + a: it does nothing, to a word or to a number in another form. It is if and only if the operand is a
  number in the engine's own form (`Prefixes.PlusIsNothing`). Prefix minus is 0 - a if and only if the operand has at most
  DIGITS digits (`Prefixes.MinusIsZeroMinus`).
- The quote of a literal is guessed from its text. A literal in double quotes with a doubled one inside is misread if it also
  has two single quotes next to each other, and only then (`Spellings.LiteralIsRead`, `Spellings.LiteralMisread`).
- Of two labels of one name the last one counts (`Labels.LabelTable`).
- LEAVE and ITERATE reach a simple DO group, since a DO is never given a name; `StmtSyntax` and `StmtSemantics` follow the code.
- 0 % b with a very small b leaves a zero that is not in the engine's normal form; `Division.DivideWhole` says exactly when.

## Model

| member | source | states |
|---|---|---|
| Numbers.Round | src/irx#arith.c:147-185 | A digit record rounded to d digits in place is canonical and has the value half-up rounding names, also when the carry runs through all digits. |
| Decimal.RoundedIsBest | src/irx#arith.c:147-185 | Half-up rounding yields a nearest number of at most d digits, the larger one of two equally near. |
| BestDecimals.ClosestIsUnique | src/irx#arith.c:147-185 | Of the numbers of at most DIGITS digits one and only one is nearest to a given quotient, the larger of two equally near: whatever is said to be nearest is thereby fixed. |
| AddSubMul.MagCompare | src/irx#arith.c:540-588 | The sign of the exact difference of two magnitudes, whatever their exponents and lengths. |
| AddSubMul.AddMagnitudes | src/irx#arith.c:594-657 | Cells 0..9 only, the top one included, and exactly the sum of the magnitudes. |
| AddSubMul.SubMagnitudes | src/irx#arith.c:663-727 | For operands in order, exactly the difference, with no borrow left over. |
| AddSubMul.AddSub | src/irx#arith.c:733-791 | The exact signed sum or difference, rounded half-up once, canonical. |
| AddSubMul.Mul | src/irx#arith.c:797-854 | The exact product, rounded half-up once, canonical. |
| Division.QuotientDigit | src/irx#arith.c:861-1094 | Estimating from two cells and counting down ends at the one digit 0..9 that leaves a remainder below the divisor. |
| Division.DivideDigits | src/irx#arith.c:861-1094 | The digit loop writes exactly the digits of floor(A / B), keeping the remainder below B and the next partial below 10 B. |
| Division.Divide | src/irx#arith.c:861-1094 | The quotient of the truncated long division, rounded half-up to DIGITS. |
| Division.QuotientIsBest | src/irx#arith.c:861-1094 | What division returns is a nearest number of DIGITS digits to the true quotient of rationals, the larger of two equally near: truncating first never changes the rounding. |
| Division.DivideWhole | src/irx#arith.c:1062-1087 | Integer division returns the whole part of the true quotient, rounded only if longer than DIGITS, and says when its zero is not in normal form. |
| ArithOps.PowerNumber | src/irx#arith.c:1100-1167 | Repeated multiplication, each step rounded. |
| ArithOps.IrxArithOp | src/irx#arith.c:1187-1391 | From two texts to the result text or the error, for all nine operators, by the value each operator has on parsed numbers. |
| ArithOps.ResultFits | src/irx#arith.c:496-535 | A result of two operands has at most DIGITS digits and its text is never cut off by the DIGITS + 32 buffer. |
| WholeNumbers.SumOfInts | src/irx#arith.c:733-791 | Addition and subtraction are those of the integers when the result has at most DIGITS digits. |
| WholeNumbers.ProductOfInts | src/irx#arith.c:797-854 | Multiplication is that of the integers when the result has at most DIGITS digits. |
| WholeNumbers.PowerOfInt | src/irx#arith.c:1100-1167 | The power of a whole number is that of the integers if none of the products on the way is longer than DIGITS. |
| WholeNumbers.PowersMultiply | src/irx#arith.c:1100-1167 | Then x ** m times x ** n is x ** (m + n). |
| WholeNumbers.QuotientOfInts | src/irx#arith.c:1062-1087 | For whole operands below 10^DIGITS, a % b is truncation toward zero. |
| WholeNumbers.RemainderOfInts | src/irx#arith.c:1238-1277 | For whole operands below 10^DIGITS all three roundings of the remainder are no-ops: a // b is the truncated remainder. |
| WholeNumbers.RemainderLaw | src/irx#arith.c:1238-1277 | (a % b) b + a // b = a, the remainder is smaller than b in magnitude, and it is zero or has the sign of a. |
| Operators.Adds | src/irx#bvm.c:2056-2113 | a + b on the VM's stack: the text of the number of DIGITS digits nearest to the sum of the values. |
| Operators.Subtracts | src/irx#bvm.c:2056-2113 | a - b: the same of the difference. |
| Operators.Multiplies | src/irx#bvm.c:2056-2113 | a * b: the same of the product. |
| Operators.Divides | src/irx#bvm.c:2056-2113 | a / b: the same of the true quotient. |
| Operators.IntDivides | src/irx#bvm.c:2056-2113 | a % b: the same of the quotient without its fraction. |
| Operators.Leaves | src/irx#bvm.c:2056-2113 | a // b: a less b times that whole part, each of the three numbers the nearest of DIGITS digits. |
| Operators.RaisesTo | src/irx#bvm.c:2056-2113 | a ** b for a whole b of 0 or more, b times DIGITS being at most 9999999: 1 multiplied by a so often, every product the nearest number; error 41 for every other b. |
| Operators.ArithmeticErrors | src/irx#bvm.c:2056-2113 | Error 41 if an operand is no number, 42 for division by zero. |
| Operators.SevenHalves | src/irx#bvm.c:2056-2113 | 7 / 2 is 3.5. |
| Operators.Negates | src/irx#bvm.c:2115-2138 | Prefix minus answers the text of the opposite number, 0 staying 0. |
| Operators.NegateErrors | src/irx#bvm.c:2115-2138 | Error 41 if the operand is no number. |
| Prefixes.MinusIsZeroMinus | src/irx#bvm.c:2115-2138 | It is 0 - a if and only if a has at most DIGITS digits, for prefix minus does not round. |
| Prefixes.PlusIsNothing | src/irx#bcom.c:2506-2518 | Prefix plus leaves its operand as it is: it is 0 + a if and only if a is a number written in the engine's own form. |
| Prefixes.PlusOfWord | src/irx#bcom.c:2506-2518 | +'abc' is abc, where 0 + 'abc' is error 41. |
| Operators.ComparesValues | src/irx#bvm.c:2140-2262 | At FUZZ 0 the six comparisons of numbers answer 1 exactly when the relation holds between the values. |
| Operators.ComparesWithFuzz | src/irx#bvm.c:2140-2262 | With FUZZ numbers of one sign are also equal if their rounded difference lies below the last DIGITS - FUZZ digits of the larger; otherwise the values decide. |
| Operators.ComparesTexts | src/irx#bvm.c:2140-2262 | If an operand is no number the texts are compared: the first differing character, then the length. |
| Operators.ComparesStrictly | src/irx#bvm.c:2263-2331 | So do the six strict comparisons, always. |
| Operators.Connects | src/irx#bvm.c:2332-2434 | The truth tables of and, or, exclusive or and not. |
| Operators.LogicErrors | src/irx#bvm.c:2332-2434 | Error 34 for an operand other than 0 and 1, on either side. |
| Operators.Joins | src/irx#bvm.c:2435-2474 | Concatenation, without and with a blank. |
| Operators.ExitIs | src/irx#bvm.c:1537-1583 | The code EXIT leaves: the sign and the digits in front, in a signed 32-bit word, whatever comes behind. |
| Operators.CountIs | src/irx#bvm.c:450-487 | A DO count: a sign and digits, in a signed 32-bit word. |
| Operators.NoCount | src/irx#bvm.c:450-487 | Any other text counts as 0. |
| NumberText.FromStr | src/irx#arith.c:192-308 | The digit record read from a text in place is the number the text denotes, or there is none. |
| NumberGrammar.TextIsRead | src/irx#arith.c:192-308 | Every text of blanks, a sign, digits with a point somewhere, a power of ten and blanks is read as its digits' value moved by point and power. |
| NumberGrammar.ReadIsText | src/irx#arith.c:192-308 | Nothing else is read. |
| NumberGrammar.PowerWithoutDigits | src/irx#arith.c:192-308 | 1E is such a text, and is 1. |
| NumberWriter.Format | src/irx#arith.c:318-490 | The guarded writes into a buffer of max characters leave the first max characters of the number's text, the one NumberShape describes. |
| NumberText.FormatLength | src/irx#arith.c:318-490 | At most DIGITS digits take fewer than DIGITS + 16 characters in either FORM, so the guards never cut anything off. |
| NumberShape.HasExponent | src/irx#arith.c:318-490 | The text of a number other than 0 has no exponent if and only if 10^-5 <= abs(v) < 10^(DIGITS + 1). |
| NumberShape.TextOfNumber | src/irx#arith.c:318-490 | Without one it is a sign if negative, a whole part with no zero in front, and a point only before a fraction not ending in 0; with one there is one digit in front of the point, under ENGINEERING one to three and an exponent divisible by 3, and the exponent's sign is always written. |
| NumberShape.PlainInstances | include/irxarith.h:25 | 0.05, 0.00001 and -1200000000. |
| NumberShape.ExponentInstances | src/irx#arith.c:318-490 | 1E-6, and 12E+10 as 1.2E+11 and as 120E+9. |
| NumberText.PrintParse | src/irx#arith.c:192-308 | Reading what was written gives sign, digits and exponent back, for every canonical number, any DIGITS and either FORM. |
| Comparison.IrxArithCompare | src/irx#arith.c:1401-1505 | From two texts to -1, 0 or 1, or no answer when one is no number. |
| Comparison.CompareIsExact | src/irx#arith.c:1401-1505 | At FUZZ 0 the answer is the sign of the exact difference of the two values. |
| Comparison.CompareIsTotalOrder | src/irx#arith.c:1401-1505 | At FUZZ 0 comparison is a total order in which 0 means equal values. |
| Comparison.FuzzyCompareAntisymmetric | src/irx#arith.c:1401-1505 | With any FUZZ, swapping the operands swaps the sign. |
| IntegerFastPath.ParseFast | src/irx#bvm.c:362-400 | The loop takes exactly the texts of an optional sign and at most nine significant digits, with their value, never overflowing an int32. |
| IntegerFastPath.FastIsNumber | src/irx#bvm.c:362-400 | A text the shortcut takes is a number to the engine, with the same value. |
| IntegerFastPath.I32toa | src/irx#bvm.c:489-529 | The characters written are the integer's plain decimal text. |
| IntegerFastPath.IntTextParses | src/irx#bvm.c:489-529 | The engine reads the text of a cached integer back as that integer. |
| IntegerFastPath.TryArithFast | src/irx#bvm.c:543-621 | Machine arithmetic with its window tests yields the named integer result or declines; nothing wraps. |
| IntegerFastPath.FastPathRefinesEngine | src/irx#bvm.c:2056-2113 | Whenever the shortcut answers at DIGITS 9, the text is character for character the engine's, for ADD, SUB, MUL, IDIV and MOD. |
| IntegerFastPath.FastCompare | src/irx#bvm.c:2180-2198 | Comparing cached integers agrees with the engine's comparison of their texts. |
| CacheRefinement.StepRefines | src/irx#bvm.c:2056-2113 | Every core instruction (stack, variables, operators, jumps, counters) keeps each cache right: a cached integer is the value of its text; erasing all caches commutes with it. |
| CacheRefinement.RunRefines | src/irx#bvm.c:404-446 | Over any stretch of core instructions the machine with caches and shortcuts and the one without do the same, cell for cell, on everything but the caches. |
| MachineCaches.ReturnValueMatches | src/irx#bvm.c:3028-3120 | RETURN with a value hands a right cached integer on to RESULT and to the caller's stack. |
| MachineCaches.NextMatches | src/irx#bvm.c:1193-1240 | Every instruction, calls, returns, PROCEDURE, EXPOSE, SIGNAL and trapped errors included, keeps each cached integer right in the pools of all activations, and erasing the caches commutes with it. |
| MachineCaches.MachineRefines | src/irx#bvm.c:404-446 | In every reachable state of every run each cached integer is its text's value, and the machine without caches and shortcuts makes the same run, instruction by instruction. |
| ExprGrammar.PhraseIsRead | src/irx#bcom.c:2301-2993 | Every phrase of the precedence grammar, function calls with omitted arguments included, is read by the nine levels as its own tree: left-associative throughout, `**` too, prefix tighter than `**`. |
| ExprGrammar.ReadIsPhrase | src/irx#bcom.c:2301-2993 | Whatever the descent accepts within the nesting limit is a phrase of the grammar with that tree. |
| ExprGrammar.ItemsAreRead | src/irx#bcom.c:1031-1093 | An argument list is read item by item, with up to sixteen slots, empty ones as omitted arguments. |
| ExprGrammar.PrintedIsRead | src/irx#bcom.c:2301-2993 | A tree, calls with omitted arguments included, printed with only the parentheses the table requires, is read back as that tree. |
| ExprGrammar.PhraseIsWritable | src/irx#bcom.c:1031-1093 | And no other trees are read: a call has at most sixteen arguments, never a single omitted one. |
| Spellings.OperatorsAreSpelled | src/irx#bcom.c:2541-2993 | Each operator of each level is written in the ways of one table, twenty-seven rows for all of them, and in no other way. |
| Spellings.SideBySide | src/irx#bcom.c:2722-2774 | Two operands join without a blank exactly if the second starts in the column behind the last character of the first, quotes and suffix counted. |
| Spellings.LiteralIsRead | src/irx#bcom.c:1363-1404 | A literal is what was written between its quotes, doubled quotes standing for one, unless it is in double quotes, contains one, and has two single quotes next to each other; then never. |
| Spellings.LiteralMisread | src/irx#bcom.c:1363-1404 | The literal that starts with `"a""b` and goes on with two single quotes and c: the doubled quotes stay and one of the single ones is lost. |
| ExprSyntax.PeakBoundsStack | src/irx#bcom.c:672-726 | Read at nesting depth d and level k with the counter peaking at P, an expression without calls needs at most (7 (P - d) + 23 - k) / 8 stack cells: eight units of nesting buy seven cells. |
| ExprSyntax.DepthBoundsStack | src/irx#bcom.c:672-726 | Stack growth is at most the peak of the compile-time counter plus two, and at most 37. |
| ExprSyntax.ExprDepth | src/irx#bcom.c:3009-3031 | A whole expression: 37 cells, 38 if commas join it over line ends; then growth is within the peak plus two if and only if each later segment leaves a cell of that. |
| Nesting.PhrasePeak | src/irx#bcom.c:672-726 | On a phrase of the grammar the counter peaks at what the phrase costs: one a parenthesis or call, one a waiting operator, two a prefix. |
| Nesting.FortyParentheses | src/irx#bcom.c:672-708 | Forty pairs of parentheses around a number are read as that number; with more the program stops with error 39. |
| Nesting.BoundIsReached | src/irx#bcom.c:672-726 | For every peak up to 40 there is an expression that is read and needs exactly the cells the bound allows. |
| Nesting.CommaTakesThree | src/irx#bcom.c:3009-3031 | A variable and, behind a continuation comma, a literal of 64 characters: peak 0, three cells. |
| Nesting.JoinedReaches | src/irx#bcom.c:3009-3031 | Behind a continuation comma each of those expressions takes one cell more: 38 are reached. |
| ExprCode.StrRuns | src/irx#bcom.c:1450-1469 | A literal of any length, pushed in chunks of 63 characters and rejoined, ends as the whole text on the stack. |
| ExprCode.ExprRuns | src/irx#bcom.c:2301-2993 | Running an expression's code from any stack with room ends in that stack and the expression's value, the one Operators describes, or in its error; nothing else changes. |
| Compiler.Compiler.AddConst | src/irx#bcom.c:732-764 | Interning: the index of an equal entry, or a new last one, or too long or too many. |
| Compiler.Compiler.NestEnter | src/irx#bcom.c:672-708 | Enters a nesting level, or skips to the closing parenthesis and emits error 39, or refuses outside of one. |
| Compiler.Compiler.EmitPushStr | src/irx#bcom.c:1450-1469 | The chunk loop emits the code of the literal and interns its chunks in order. |
| Compiler.Compiler.Exp0 | src/irx#bcom.c:2949-2993 | Level 0 of the descent leaves position, code, tables and nesting depth as the tree it reads says, or the reason there is none. |
| Compiler.Compiler.Exp2 | src/irx#bcom.c:2776-2921 | The comparison level: at most one operator, in every spelling. |
| Compiler.Compiler.Exp3 | src/irx#bcom.c:2722-2774 | Concatenation by operator, by a blank and by nothing in between. |
| Compiler.Compiler.Exp6 | src/irx#bcom.c:2541-2565 | Power, folded to the left. |
| Compiler.Compiler.Exp7 | src/irx#bcom.c:2474-2536 | The prefix level. |
| Compiler.Compiler.Exp8 | src/irx#bcom.c:2301-2472 | Operands: parentheses, literals, numbers, constant symbols, variables and function calls, behind continuation commas. |
| Compiler.Compiler.FunctionCall | src/irx#bcom.c:2301-2472 | A function call: the name interned first, nesting counted, the arguments' code, CALL_BIF with name and count. |
| Compiler.Compiler.Arguments | src/irx#bcom.c:1031-1093 | The argument loop up to the closing parenthesis, omitted arguments marked, at most sixteen. |
| Compiler.Compiler.WholeExpr | src/irx#bcom.c:3009-3031 | Expressions joined over line ends. |
| Compiler.Compiler.PutMark | src/irx#bcom.c:492-516 | A trace map entry at the end of the code replaces one for the same place; the map ascends and no depth in front of it changes. |
| Compiler.Compiler.PatchEach | src/irx#bcom.c:899-906 | All jumps on a block's list go to the target, in place. |
| Compiler.Compiler.CompileIf | src/irx#bcom.c:3059-3118 | IF: exactly the code of the tree, both jumps patched in place. |
| Compiler.Compiler.CompileSelect | src/irx#bcom.c:3124-3224 | SELECT with its WHENs and OTHERWISE: exactly the code of the tree, the jumps to its end patched, LEAVEs included. |
| Compiler.Compiler.CompileToTest | src/irx#bcom.c:3233-3257 | The test of DO TO for either sign of the step, and of FOR behind it. |
| Compiler.Compiler.CompileDo | src/irx#bcom.c:3259-3602 | Every kind of DO: header, counter, test, body, tail, UNTIL compiled from the header behind the body, LEAVE and ITERATE patched. |
| Compiler.Compiler.CompileIterate | src/irx#bcom.c:3608-3651 | ITERATE jumps to the innermost DO's iterate point, recorded until that is known. |
| Compiler.Compiler.CompileLeave | src/irx#bcom.c:3653-3693 | LEAVE goes to the innermost DO, or to a SELECT when there is none. |
| Compiler.Compiler.CompileCallTo | src/irx#bcom.c:1101-1188 | CALL: name, arguments, CALL with name and count, or the reason it is refused. |
| Compiler.Compiler.CallArguments | src/irx#bcom.c:1101-1188 | The argument loop of CALL, with omitted arguments between, before and behind commas. |
| Compiler.Compiler.CompileReturn | src/irx#bcom.c:1194-1210 | RETURN, with and without a value. |
| Compiler.Compiler.CompileRefused | src/irx#bcom.c:4206-4263 | A block past the control stack is skipped to its own END and raises error 11 when reached. |
| Compiler.Compiler.CompileStmt | src/irx#bcom.c:4269-4578 | Any statement: mark, clause byte and exactly the code of its tree; the trace map says of every byte at least the depth of its statement. |
| Compiler.Compiler.CompileProgram | src/irx#bcom.c:4584-4634 | The whole program: OK exactly as the parser and the limits say, the code of the tree with no jump left open. |
| StmtGrammar.EndsExpression | src/irx#bcom.c:2680-2687 | An expression ends in front of each of twenty-seven keywords, listed word by word, and of the end of a clause. |
| StmtGrammar.HeaderIsRead | src/irx#bcom.c:3259-3462 | Every header of DO as written, with TO, BY and FOR in their order, WHILE, UNTIL, FOREVER, a count or nothing, is read as the loop it says. |
| StmtGrammar.StmtIsRead | src/irx#bcom.c:4269-4578 | A statement written out as tokens is read back as its tree: IF THEN ELSE, SELECT with WHEN and OTHERWISE, every DO, SAY, assignment, CALL, RETURN, EXIT, LEAVE, ITERATE, NOP. |
| StmtGrammar.BlockIsRead | src/irx#bcom.c:4269-4578 | So is a list of statements up to the END or the end of the source. |
| StmtGrammar.ProgramIsRead | src/irx#bcom.c:4584-4634 | So is a program with its labels. |
| StmtGrammar.StmtIsText | src/irx#bcom.c:4269-4578 | Whatever is read as a statement, with nothing nested too deep and no comma continuing a line, is such a text. |
| StmtGrammar.BlockIsText | src/irx#bcom.c:4269-4578 | The same of a block. |
| StmtGrammar.ProgramIsText | src/irx#bcom.c:4584-4634 | The same of a program. |
| StmtGrammar.ChoiceIsRead | src/irx#bcom.c:3059-3118 | The tokens of IF X = 1 THEN SAY 'yes' are that program. |
| Patching.PatchFills | src/irx#bcom.c:899-920 | Patching the recorded positions writes into the bytes exactly the displacements that filling the tree's holes asks for. |
| Simulation.StmtRuns | src/irx#bvm.c:2475-2624 | Running the code of a statement, wherever it is placed, is executing the statement: variables, output, error, LEAVE and ITERATE. |
| Simulation.LoopRuns | src/irx#bcom.c:3463-3542 | Loops with a test run on the machine as the interpreter goes round. |
| Simulation.CountRuns | src/irx#bvm.c:2570-2624 | A counted loop runs its body as often as its counter says, and leaves the counters of the loops around it alone. |
| Programs.ProgramRuns | src/irx#bcom.c:4584-4634 | Tokens of any program without calls, compiled and run with cache and shortcuts, write the lines, leave the variables and end the way the tree means. |
| HiddenLoops.ProgramAlike | src/irx#bcom.c:825-839 | The made-up limit, step and count variables of DO TO come to the same as values nobody sees, if the program does not use their names and no two loops inside each other share a digit. |
| ControlledLoops.CountIsFloor | src/irx#bcom.c:3233-3257 | The number of rounds is max(0, floor((t - s) / b) + 1). |
| ControlledLoops.ControlledDo | src/irx#bcom.c:3463-3542 | DO v = s TO t BY b FOR n over integers of nine digits runs a body that assigns none of the loop's variables exactly that often, capped by n; if the body does not leave the loop, v ends as s + count b, for both signs of b. |
| EndToEnd.Compile | src/irx#bcom.c:4700-4874 | From tokens to image and trace map, each as the tree read asks for; which programs are read as which trees StmtGrammar says. |
| EndToEnd.CompiledExactly | src/irx#bcom.c:4700-4874 | With at most 48 jumps in the program, compiling succeeds if and only if the program parses and code and tables keep within their limits. |
| EndToEnd.CompiledRuns | src/irx#bvm.c:2475-2624 | What the compiler accepts runs as the program means. |
| EndToEnd.CompiledIsSound | include/irxbops.h:366-403 | OP_SIZE cuts compiled code into whole instructions, and every jump and counter lands on one inside the code. |
| EndToEnd.CompiledLabels | src/irx#bvm.c:1355-1376 | Every entry of the label table scanned from compiled code is -1 or an instruction inside the code. |
| EndToEnd.CompiledLoops | src/irx#bvm.c:1087-1098 | Of every counted loop in compiled code: behind any instruction of its body the trace map gives a greater depth than the number of the loop's counter. |
| Execution.ProgramEnds | src/irx#bvm.c:2475-2624 | A program that means to end ends on the machine, that way. |
| Execution.Execute | src/irx#bvm.c:2475-2624 | Compile and run: if the run of a program without calls ends, the program means to end, and ends that way; otherwise it goes on. |
| CodeShape.CodeIsSound | src/irx#bcom.c:305-368 | No placeholder is left: each displacement read back is the one intended and leads to the start of an instruction. |
| LoopDepth.CountedLoopsAreDeep | src/irx#bcom.c:3518-3524 | In compiled code every FORINIT is followed by the jump past its loop, in front of whose end stands the DECFOR of the same counter, and the body between lies deeper than the counter. |
| Labels.ScanLabels | src/irx#bvm.c:1351-1376 | The scan by OP_SIZE finds for every symbol the end of its last LABEL. |
| Labels.LabelTable | src/irx#bvm.c:1365-1372 | Of a compiled program, that is where the last label of the name stands in the source. |
| Labels.LabelsLand | src/irx#bvm.c:1355-1376 | No label leads anywhere but to an instruction inside the code. |
| TraceMap.LineAt | src/irx#bvm.c:863-892 | The binary search returns the entry a scan for the last one at or in front of pc returns, or none. |
| TraceMap.ReadSiteDepth | src/irx#bvm.c:1087-1098 | The depth of the clause a call stands in. |
| Activation.CallersCountersStay | src/irx#bvm.c:1087-1125 | In any run of a callee, nested calls included, no DO counter below its base changes. |
| CallersLoops.LoopSurvivesCall | src/irx#bvm.c:2570-2726 | A compiled program calls from inside a counted loop: up to and including the return, whatever is called and looped in between, the loop's count stays what it was. |
| CallRuns.CallRuns | src/irx#bvm.c:2633-2726 | The code of CALL or a function call with call-free arguments evaluates them from left to right, omitted ones empty, and calls the name with their values; the first error is raised instead, nothing called. Said of the machine without caches, NOVALUE not trapped; MachineRefines carries it to the other. |
| CallRuns.CallAndReturn | src/irx#bvm.c:2963-3120 | The callee starts at the label with those arguments; whatever run brings it to a RETURN, the caller goes on behind the call with everything of its own as it was, RESULT set or dropped, and a function's value on its stack. |
| CallRuns.BuiltinRuns | src/irx#bvm.c:2728-2961 | A name without a label is a built-in function: its answer to those arguments is the value of a function call, and RESULT after CALL; nothing else changes. |
| CallRuns.TopReturns | src/irx#bvm.c:2963-3120 | At the top level RETURN ends the run with code 0, its value left in RESULT. |
| Activation.CallersFrameStays | src/irx#bvm.c:2633-2726 | Nothing a callee does touches its caller's frame. |
| Activation.ReturnRestores | src/irx#bvm.c:2963-3120 | RETURN restores the counters' base, traps, handlers, arguments, frames and position of the caller exactly. |
| Activation.JumpEndsAtTop | src/irx#bvm.c:3124-3186 | With pools and activations matching, SIGNAL and any trap end in the program's pool with stack and frames empty. |
| Conditions.ConditionBits | src/irx#bvm.c:126-145 | Six conditions, each with a handler of its own. |
| Conditions.OnIsArmed | src/irx#bvm.c:3287-3300 | SIGNAL ON arms its own condition with its label and leaves the others as they were. |
| Conditions.OffIsNot | src/irx#bvm.c:3302-3315 | SIGNAL OFF disarms it and no other. |
| Conditions.ErrorIsCaught | src/irx#bvm.c:4134-4282 | An error of any instruction, or of a call nested past 250 activations, goes to the label of an armed SYNTAX handler, with no activation, an empty stack, its number in RC and the handler off; without a handler it ends the run with its number. |
| Conditions.ErrorsReachHandler | src/irx#bvm.c:4134-4282 | From SIGNAL ON SYNTAX on, however many calls are entered and left, an error as long as that activation lives goes to the label named, if no SIGNAL ON or OFF and no other trap came between; a second one is not caught. |
| Conditions.SiglIs | src/irx#bvm.c:4210-4218 | After a call, a SIGNAL or a trap SIGL is the line of the last clause begun in front of the place left. |
| Activation.PoolsAlwaysMatch | src/irx#bvm.c:3972-3998 | In every run without a second PROCEDURE in one activation there is one pool for the program and one for each activation that ran it. |
| Activation.ReturnsToPool | src/irx#bvm.c:2963-3026 | RETURN then ends in the caller's pool. |
| Isolation.MatchExactly | src/irx#bcom.c:2083-2100 | Through a whole run pools and activations match if and only if no activation runs PROCEDURE twice. |
| Isolation.TwiceReturns | src/irx#bvm.c:3972-3998 | CALL F; EXIT; F: PROCEDURE; PROCEDURE; RETURN as compiled, its labels those the scan finds: after RETURN the caller has two pools where it had one. |
| Isolation.TwiceSignals | src/irx#bvm.c:4169-4282 | The same program with SIGNAL: the program goes on in a pool that is not its own. |
| Isolation.CalleeIsShielded | src/irx#bvm.c:3972-4032 | As long as an activation that ran PROCEDURE lives, neither it nor anything it calls changes a variable of its callers it does not expose, nor what they expose. |
| Isolation.ProcedureIsolates | src/irx#bvm.c:2963-3120 | After its RETURN the caller has its pools back, each exposing what it did, and every variable not exposed as it was, RESULT apart. |
| Exposing.ExposedIsOne | src/irx#bvm.c:3972-4032 | After PROCEDURE EXPOSE n the callee reads the caller's n, and what it stores or drops the caller finds. |
| Exposing.ExposedStays | src/irx#bvm.c:3999-4032 | Exposing another name does not undo that. |
| Exposing.ExposedComesBack | src/irx#bvm.c:2963-3120 | At that activation's RETURN, whatever ran and was called in between, the caller has in an exposed n the value the callee has there, and keeps it behind the RETURN, RESULT apart. |
| Isolation.StackStaysBounded | src/irx#bvm.c:43 | In every run, calls, returns, traps and SIGNAL included, the stack holds at most 256 cells. |
| VirtualMachine.Vm.Run | src/irx#bvm.c:1193-1240 | The dispatch loop over arrays, n instructions of it, is n steps of the machine. |
| VirtualMachine.Vm.DoForInit | src/irx#bvm.c:2570-2607 | FORINIT stores the count and leaves its truth, growing the counter table when needed. |
| VirtualMachine.Vm.GrowCounters | src/irx#bvm.c:1103-1125 | The table doubles until the counter fits; what was in it stays. |
| VirtualMachine.Vm.DoCall | src/irx#bvm.c:2633-2792 | A call of a label pushes a frame with everything RETURN restores; of a built-in function, its answer. |
| VirtualMachine.Vm.DoReturnValue | src/irx#bvm.c:3028-3120 | RETURN with a value. |
| VirtualMachine.Vm.JumpTo | src/irx#bvm.c:3124-3186 | SIGNAL unwinds every frame and goes to the label with everything empty. |
| ByteDigits.MulAdd | src/irx#bifs.c:1660-1683 | Digits times 256 plus a byte, exactly, or not enough room. |
| ByteDigits.ToBytes | src/irx#bifs.c:1693-1739 | Repeated division by 256 yields the low bytes of the number and leaves its quotient. |
| ByteDigits.TwosComplement | src/irx#bifs.c:1822-1851 | Negates modulo 256^n in place, modulo 16^(2n-1) for an odd number of nibbles. |
| Conversions.MagnitudeText | src/irx#bifs.c:1754-1816 | The bytes as an unsigned number, formatted under the settings; its digit buffer never fills. |
| Conversions.C2D | src/irx#bifs.c:1853-1939 | The text of the string's value, signed when a length is given. |
| Conversions.X2D | src/irx#bifs.c:1941-2053 | The same for hexadecimal digits, an odd number included, with blanks skipped. |
| Conversions.HexDigits | src/irx#bifs.c:1412-1427 | The sixteen digits, capital or small, with their values, and no others. |
| Conversions.ReadWhole | src/irx#bifs.c:2063-2106 | The digits of a whole number, or which of four reasons there are none. |
| ByteOrder.WholeExactly | src/irx#bifs.c:2063-2106 | A text is converted if and only if it denotes an integer below 10^2000 in magnitude, however written. |
| Conversions.WriteBytes | src/irx#bifs.c:2121-2254 | The low n bytes of the number in two's complement, most significant first. |
| Conversions.D2C | src/irx#bifs.c:2258-2357 | The bytes of a whole number, or the error. |
| Conversions.D2X | src/irx#bifs.c:2359-2495 | Its hexadecimal digits, or the error. |
| ByteOrder.BytesInOrder | src/irx#bifs.c:2258-2357 | The k-th byte from the right is the k-th digit of the number to base 256, of a negative number too. |
| ByteOrder.HexInOrder | src/irx#bifs.c:2359-2495 | The k-th hexadecimal digit likewise, in capitals. |
| ByteOrder.TwoBytes | src/irx#bifs.c:1853-1939 | C2D of two bytes, signed and unsigned: the first one counts most. |
| Conversions.C2DOfD2C | src/irx#bifs.c:2258-2357 | C2D(D2C(n, L), L) is n for -256^L / 2 <= n < 256^L / 2 and n below 10^DIGITS. |
| Conversions.D2COfC2D | src/irx#bifs.c:1853-1939 | D2C(C2D(s, L), L) is s for every string of L bytes whose number has at most DIGITS digits. |
| Conversions.X2DOfD2X | src/irx#bifs.c:2359-2495 | X2D(D2X(n, L), L) is n for -16^L / 2 <= n < 16^L / 2 and n below 10^DIGITS, L odd or even. |
| Conversions.UnsignedC2DOfD2C | src/irx#bifs.c:2258-2357 | Without a length the number comes back if and only if it is below 256^504. |
| Conversions.UnsignedX2DOfD2X | src/irx#bifs.c:2359-2495 | Without a length the number comes back if and only if it is below 16^1008. |
| Conversions.BytesAreLost | src/irx#bifs.c:2258-2357 | 1E1400 is taken by D2C and C2D gives another number back. |
| ParseMachine.ParseFrame.Assign | src/irx#bvm.c:745-857 | The slice goes to the pending target and the pointer moves on; for a blank, past one word and the blank behind it. |
| ParseMachine.ParseFrame.BuildName | src/irx#bvm.c:3600-3660 | A compound target's name from stem and tails, if and only if it has at most 63 characters. |
| ParseResults.CompoundName | src/irx#bvm.c:3600-3660 | The name is the stem and the tails in capitals, a variable standing for its value or, without one, its name, with periods between them. |
| ParseResults.NameOfElement | src/irx#bvm.c:3600-3660 | a.i.j with 3 in I and nothing in J is A.3.J. |
| ParseResults.Capitals | src/irx#bvm.c:3548-3583 | UPPER turns the 26 letters into capitals and leaves every other character. |
| ParseMachine.ParseFrame.TrVar | src/irx#bvm.c:3797-3892 | An indirect pattern: the variable's text looked for, or a cut at the pointer when it has none. |
| ParseMachine.ParseFrame.Execute | src/irx#bvm.c:3548-3892 | A template's instructions in turn. |
| ParseResults.CutIsExact | src/irx#bvm.c:3672-3892 | A trigger's cut is the only one with the right text before, in and behind it: the next word; everything up to the first occurrence; up to the c-th character and on in front of it; so many characters on, or back. |
| ParseResults.SourceIsRebuilt | src/irx#bvm.c:745-857 | Without column triggers the slices follow each other without overlapping, the pointer never goes back, and blanks, slices and delimiters put together are the part of the source scanned. |
| ParseResults.SlicesApart | src/irx#bvm.c:745-857 | Without column triggers no character of the source goes to two targets. |
| ParseResults.TargetsGetTheirSlices | src/irx#bvm.c:745-857 | A variable ends with the last slice it was a target of; all others keep their values. |
| ParseResults.WordsAreDealt | src/irx#bvm.c:3672-3684 | Targets in a row get the words of the source one each, the last one what is left, whose words are the others. |
| ParseResults.SixBlanks | src/irx#bvm.c:745-857 | Between words stand the blank and the five control characters from 9 to 13, and nothing else. |
| ParseResults.SplitUndoesJoin | src/irx#bvm.c:3685-3731 | Splitting at a delimiter gives back what was joined with it, if and only if no part meets it early. |
| ParseResults.WordsBeforePattern | src/irx#bcom.c:1225-1228 | Words before a pattern follow the language's rule if and only if they end before its first occurrence or it does not occur. |
| ParseTemplates.TemplateCompiler.Flush | src/irx#bcom.c:1287-1361 | Waiting targets emitted in order, all but the last with a blank trigger, the last with the pattern. |
| ParseTemplates.TemplateCompiler.Template | src/irx#bcom.c:1513-1815 | A whole template, section by section, sixteen targets in each at most. |
| ParseTemplates.EveryTargetOnce | src/irx#bcom.c:1513-1815 | Every kept target, compound ones with the tail values of that moment, is assigned exactly once and in order, unless an empty literal directly follows it; the clause fails only at a compound name of more than 63 characters. |
| ParseTemplates.EmptyPatternDrops | src/irx#bvm.c:3548-3892 | a '' b over x: a is never assigned, b gets x. |
| ParseTemplates.WordTemplate | src/irx#bcom.c:1513-1815 | A template of variables only deals the words of the source to the first sixteen. |
| ParseTemplates.ColumnTemplate | src/irx#bvm.c:3732-3751 | Ascending columns c1 v1 c2 v2 ... deal exactly the fields between them: v1 the characters number c1 up to c2, the last variable the rest. |
| ParseTemplates.ColumnsCount | src/irx#bvm.c:3732-3751 | a 3 b over abcdef gives ab and cdef. |
| ParseTemplates.DelimiterTemplate | src/irx#bcom.c:1513-1815 | v1 'd' v2 'd' ... vn takes apart what was joined with d, under the exact condition. |
| ParseTemplates.WordsOvertake | src/irx#bcom.c:1225-1228 | v1 v2 ',' over `a,b c` gives `a,b` and `c`. |
| Registry.Registry.AllocSlot | src/irx#anch.c:245-335 | The first slot behind the mark that is no sentinel, the next token, the mark never falling; full after 62. |
| Registry.Registry.FreeSlot | src/irx#anch.c:337-370 | The oldest live registration of the environment goes, everything else in the table stays. |
| Registry.Registry.FindByTcb | src/irx#anch.c:404-442 | The newest live registration with that task control block. |
| Registry.Registry.FindPreviousUsed | src/irx#anch.c:444-479 | The newest live TSO-attached registration in front of the slot. |
| Registry.Registry.FindByEnvblock | src/irx#anch.c:372-402 | The oldest live registration of the environment. |
| Registry.TsoBit | include/irxanchr.h:116 | Which bit of the flags says that an environment is attached to TSO. |
| Registry.TokensRise | src/irx#anch.c:245-335 | Tokens increase strictly with the slot. |
| Registry.SixtyTwoEver | src/irx#anch.c:245-370 | Over any history exactly the first 62 requests that name an environment are registered; freeing makes no room. |
| Registry.NothingIsReused | src/irx#anch.c:245-370 | Over any history no slot is reused, nothing gone comes back, and the mark never falls. |
| Registry.NestsLeaveNothing | src/irx#anch.c:337-370 | However deeply environments nest, when all have gone only dead registrations have been added. |
| Registry.OnlyGoneLooksAlike | src/irx#anch.c:404-479 | The newest TSO-attached environment, the newest of every task and the registration of every environment are then what they were. |
| Registry.RollsBack | src/irx#anch.c:444-479 | When the newest TSO-attached environment goes, the one found in front of its slot is the newest of those left. |

## Left out

- Input and output, WTO, datasets, loading of modules, control-block layouts, code pages: nothing of the platform is modelled; SAY
  appends a line to a list.
- Storage failures: allocation always succeeds.
- The tokenizer: its token array is the input, with the flags it sets.
- The variable pool is a map per PROCEDURE level, with exposed names; its resolution cache is not part of this model, nor are
  stems as wholes, EXPOSE of a list in a variable, and DROP of a stem.
- In the compiled subset: assignment, SAY, IF, SELECT, every DO, LEAVE, ITERATE, NOP, EXIT, labels, CALL, RETURN and function
  calls. Not in it: PARSE, ARG, PROCEDURE, SIGNAL, TRACE, ADDRESS, DROP and NUMERIC statements and compound names; the compiler
  model stops at them with a code of its own (BEYOND). The machine has PROCEDURE, EXPOSE and SIGNAL; PARSE has a machine of its own.
- Programs.ProgramRuns: the meaning of statements is one without calls. Of calls the code is proved (CallRuns), with the callee as a
  run of the machine, and what they leave alone over whole runs; a program's meaning with its callees' meanings inside is not.
- EndToEnd.CompiledRuns: programs without calls, as ProgramRuns.
- Execution.ProgramEnds: programs without calls, as ProgramRuns.
- Execution.Execute: programs without calls, as ProgramRuns.
- CallRuns.CallRuns: arguments that contain calls themselves are compiled, but their running is not stated.
- Compiler.Compiler.Exp8: compound names stop the compiler model.
- Compiler.Compiler.CompileStmt: the statements named above stop the compiler model.
- Compiler.Compiler.CompileProgram: so do they in a program.
- StmtGrammar.ProgramIsText: programs with a comma that continues a line; those of StmtGrammar.ProgramIsRead have none either.
- StmtGrammar.StmtIsText: the same.
- StmtGrammar.BlockIsText: the same.
- Built-in functions are a table of answers; an omitted argument arrives as an empty text, that it is marked as omitted is not
  modelled. A function routine that ends with a plain RETURN pushes nothing, as in the code.
- EndToEnd.CompiledExactly: a compile that stops because one block has more than 48 jumps waiting is only said to have more than
  48 in all.
- StmtSemantics runs with fuel: how long a program that never ends goes on is said only as "longer than any given number".
- Exponents are unbounded integers; the engine's are 32 bits wide.
- ArithOps.IrxArithOp: the exponent of a power is decoded as the code does it for digits it has; a decoder position before the
  first digit is not modelled.
- NEG and ABS do not round, so their results are not covered by ArithOps.ResultFits.
- FORMAT, TRUNC and what FUZZ above 0 means: there is no clean specification; only antisymmetry is proved.
- The trace map's source offsets; only line and depth are kept.
- ParseTemplates.TemplateCompiler.Flush: instructions are values, not bytes.
- ParseTemplates.TemplateCompiler.Template: the tokens of the template are already sorted into targets and patterns.
- PARSE sources (PULL, VERSION, NUMERIC, ARG) and the upper-casing of other than the letters a to z.
- Registry: resetting the table, and the anchor in the TSO control block that is rolled back by what FindPreviousUsed finds.
- Flipped bits in ByteDigits are written as 255 - b, the OR of two nibbles as their sum.
