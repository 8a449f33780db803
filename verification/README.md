# Darling basic headers: a verified model

This project models three pieces of Darling's `basic-headers` and proves what they promise.

**Assertion and exception macros** (`AssertMacros.h`). Each statement macro has a production and a
debug expansion, and the header promises that the two builds differ only in diagnostics. The model
is a compiler with its correctness proof:

- `MiniC.dfy` is a small C with side effects, block-scoped variables of declared widths, loops, jumps,
  external calls and a message log. A statement may also be an unexpanded macro use; the interpreter
  `Exec` gives it the meaning the header's summaries describe (and the production code where they are
  silent), and notes the messages a debug build owes, the arguments each build evaluates, and
  *hazards*, the events on which builds may part.
- `SmallStep.dfy` is a second semantics of that C, a machine that goes one step at a time and has no
  bound on loops, and proves that the interpreter computes what the machine does; `Laws.dfy` has laws
  between different statements.
- `MacroText.dfy` has the replacement lists as tokens, form by form, and a parser that binds `else`
  to the nearest `if`; `Expansion.dfy` has the statements they stand for; `TextMeaning.dfy` proves
  that preprocessing and parsing a program gives its expansion.
- `Simulation.dfy` proves that an expanded run follows the unexpanded one; `Isolation.dfy` that variables
  with the name of the macros' own local stay out of sight; `Guarantees.dfy`,
  `Discipline.dfy`, `Exactness.dfy` and `Functions.dfy` draw the conclusions; `Traces.dfy` follows a
  function from section to section on the machine; `Witnesses.dfy` has the inputs on which builds part;
  `Machine.dfy` runs expanded programs in place.

Loops take a bound on how often they go round ("fuel"). Every statement is for all bounds, and a run
cut short agrees up to that point; `Functions.EndsOnce` and `SmallStep.InterpreterIsMachine` show that a
run that ends does not depend on it.

**Availability** (`Availability.h`, `AvailabilityInternal.h`, `AvailabilityMacros.h`): the macro
environment set-up and the choice of platform (`SetUp.dfy`), version numbers and the classification
of declarations by a range of OS versions (`Versions.dfy`), and the variadic `__API_...` entry points
with their attribute regions (`Attributes.dfy`).

**Byte order and layouts** (`architecture/byte_order.h`, `MacTypes.h`): conversions, floats through a
union and endian-dependent structures on an arbitrary host (`ByteOrder.dfy`, `Layouts.dfy`).

`dafny verify dfyconfig.toml` checks everything.

## Where the headers and their promises part

Each of these has an exact condition, named first, and an input that shows it, named second.

- A `break` or `continue` in the action of `__Verify_noErr_Action` leaves the enclosing loop in a
  production build and only the wrapper in a debug build (`Exactness.JumpsPartTheBuilds`,
  `Witnesses.BreakInAction`).
- An error code that is a nonzero multiple of 2^(bits of `long`) is lost in a debug build
  (`Exactness.NarrowingPartsTheBuilds`, `Witnesses.ErrorLost`).
- A user variable named `evalOnceErrorCode` is captured, in the argument, the action and the message
  (`Exactness.Capture` and `Exactness.CapturedVariable`, `Witnesses.NameCaptured`,
  `Witnesses.ActionCaptured` and `Witnesses.MessageCaptured`).
- A Check evaluates its argument in a debug build only (`Exactness.ChecksPartTheBuilds`, `Witnesses.CheckAssigns`);
  if that decides what is reached, the other evaluations part too (`Guarantees.EvaluationCounts`,
  `Witnesses.CountsPart`).
- On a host with an eight-byte `long`, the Long conversions to the other byte order do not have the
  image they are named for, except for 0 (`ByteOrder.LongImage`, `ConversionWitnesses.LongNotBigEndian`).
- On a big-endian host with an eight-byte `long` the float conversions return 0 (`ByteOrder.FloatRoundTrip`,
  `ConversionWitnesses.FloatComesBackZero`).
- A minimum between the two formats, from 1100 to 100999, is the number of no OS version. It is accepted,
  and can make weak what every OS in the range has and suppress a deprecation
  (`Classifier.AvailableIsPromised` and `Classifier.WeakForNothing`, `Classifier.DeprecationIsPromised` and
  `Classifier.MissingWarning`).
- Two 10.13 deprecation macros test 10.7 and 10.12 (`Classifier.MistestedDeprecation`, `Classifier.EarlyWarnings`).
- Weak import is promised for every minimum, but its attribute is empty below 10.2 and on some compilers
  (`Classifier.WeakMarkIsPromised`, `Classifier.NoWeakMarkBelowTenTwo`).
- The Swift version test wraps around in 64 bits (`Versions.SwiftCodeFits`, `Versions.SwiftWraps`).
- `AvailabilityInternal.h` leaves tvOS, watchOS and bridgeOS without a maximum when their minimum is
  set by hand (`SetUp.OtherMaximums`, `SetUp.TvWithoutMaximum`), and gives the Mac a default maximum
  below a minimum above 10.15 (`SetUp.DefaultMacRange`, `SetUp.EmptyMacRange`).
- A Mac minimum set by hand selects a table that is not defined (`SetUp.SelectionMatchesTables`,
  `SetUp.SelectedWithoutTable`).
- `__API_UNAVAILABLE_BEGIN` fails for seven platforms, and the deprecation entry points for a message
  without a platform (`Dispatch.EntryMeans`, `Regions.SevenUnavailable`).

## Model

| member | source | states |
|---|---|---|
| `SmallStep.EvalReaches` | basic-headers/AssertMacros.h:961-972 | the machine evaluates every expression to the interpreter's value, in the interpreter's state |
| `SmallStep.InterpreterIsMachine` | basic-headers/AssertMacros.h:589-608 | for every statement without macro uses, host and state: the interpreter ends with an outcome, given enough fuel, if and only if the small-step machine halts with it |
| `Laws.ElseIsThen` | basic-headers/AssertMacros.h:591-595 | an `else` branch is the `then` branch of the negation, and an `if` one with an empty `else` |
| `Laws.DoWhileUnrolls` | basic-headers/AssertMacros.h:598-607 | a `do ... while` is its body and then, if the condition holds, itself |
| `Laws.BreakAndContinue` | basic-headers/AssertMacros.h:589-608 | a break ends a loop and a continue starts its next round |
| `Discipline.ReadWritten` | basic-headers/AssertMacros.h:964-964 | a variable holds what was last written to it, converted to its declared width, and no other changes |
| `Simulation.RunWrapper` | basic-headers/AssertMacros.h:280-288 | a `do ... while (0)` runs its contents once and holds in a break or continue |
| `Simulation.RunCopiesAndTests` | basic-headers/AssertMacros.h:598-606 | the debug noErr shape: the code is converted into a new local, tested there, and the local is gone afterwards |
| `Simulation.RunActThenJump` | basic-headers/AssertMacros.h:724-727 | the action runs first and the label is reached exactly when it completes |
| `Simulation.EvalSees` | basic-headers/AssertMacros.h:597-607 | user expressions give the same value and effects whatever copies of error codes are in scope |
| `Simulation.ExecKeepsScopes` | basic-headers/AssertMacros.h:597-607 | every statement, by whatever exit, leaves the same declarations in scope |
| `Simulation.Simulates` | basic-headers/AssertMacros.h:242-1193 | for every program, host, state and bound, a production run does what the unexpanded program does, and so does a hazard-free debug run: variables, exit, calls, argument evaluations and log |
| `Guarantees.RunFollows` | basic-headers/AssertMacros.h:242-1193 | the same from any start: exit, variables, calls, evaluated arguments and log of either build |
| `Guarantees.BuildsAgree` | basic-headers/AssertMacros.h:49-74 | without a hazard both builds reach the same variables by the same exit with the same calls; production logs nothing, debug exactly the messages owed, in order |
| `Guarantees.RunCounts` | basic-headers/AssertMacros.h:49-63 | over a whole run the arguments production evaluates are those reached, in order and as often, without those of Check forms |
| `Guarantees.EvaluationCounts` | basic-headers/AssertMacros.h:49-63 | the same of the two expanded runs, where no hazard makes them go different ways |
| `Discipline.NarrowingDecides` | basic-headers/AssertMacros.h:964-965 | testing the `long` copy decides as testing the code if and only if the code is 0 or not a multiple of 2^bits |
| `Discipline.NarrowIsConversion` | basic-headers/AssertMacros.h:964-964 | the copy is the value of that width congruent to the code |
| `Discipline.OsCodesSurvive` | basic-headers/MacTypes.h:278-279 | every OSErr and OSStatus keeps its zero test through a `long` of 32 or 64 bits |
| `Discipline.ExecSound` | basic-headers/AssertMacros.h:964-964 | no statement, by whatever exit, leaves a variable with a value its declared width cannot hold |
| `Discipline.FitsKeepsError` | basic-headers/AssertMacros.h:961-972 | an error code whose type is no wider than `long` is never lost: variables and assignments by declared width, calls, sums and casts by type |
| `Discipline.UsualArgumentsAreDisciplined` | basic-headers/AssertMacros.h:65-74 | an OSErr or OSStatus passed as `err`, as `err = f()` or as `f()` keeps the rules |
| `Laws.MacroFreeIsDisciplined` | basic-headers/AssertMacros.h:65-74 | the rules are about macro uses only: any program without one keeps them |
| `Discipline.StaysInside` | basic-headers/AssertMacros.h:589-608 | a statement without a free break or continue never exits by one |
| `Discipline.DisciplineIsSafe` | basic-headers/AssertMacros.h:242-1193 | a program that keeps the rules meets no hazard, on any run from a state whose variables hold values of their types |
| `Discipline.DisciplinedBuildsAgree` | basic-headers/AssertMacros.h:49-74 | the header's promise for every such program, with rules that can be checked in its text |
| `Exactness.UseRuns` | basic-headers/AssertMacros.h:961-972 | every use that is not dropped, in either build, with any argument and action: the argument, the copy, the test, the message, the reaction, the way out |
| `Exactness.EvaluatedOnce` | basic-headers/AssertMacros.h:49-63 | on any run of either build, a use that is not dropped evaluates its argument once, before its action, and nothing else but the action evaluates one |
| `Exactness.JumpsPartTheBuilds` | basic-headers/AssertMacros.h:589-608 | when `__Verify_noErr_Action` fails in both builds and its action leaves alike in both, the builds take the same exit if and only if that is not a break or continue |
| `Exactness.SafeActionsLeaveAlike` | basic-headers/AssertMacros.h:589-608 | an action without a hazard of its own leaves alike in both builds |
| `Exactness.JumpRouting` | basic-headers/AssertMacros.h:589-746 | for every form with an action, every argument and every action, in both builds, the whole outcome: the action runs exactly when the test fails, from the state after the message, and its effects stay; Require forms reach the label when it completes; a wrapper holds its break or continue in |
| `Exactness.RoutingByMeaning` | basic-headers/AssertMacros.h:629-746 | the same by the described meaning of the action, where the builds do not differ on jumps |
| `Exactness.NarrowingPartsTheBuilds` | basic-headers/AssertMacros.h:575-974 | every Verify and Require noErr form, with or without an action, reacts alike in both builds if and only if its code is 0 or no multiple of 2^bits |
| `Exactness.JumpsWhenItReacts` | basic-headers/AssertMacros.h:950-974 | a Require form without an action jumps exactly when it reacts |
| `Exactness.ChecksPartTheBuilds` | basic-headers/AssertMacros.h:275-400 | the builds agree on a Check if and only if evaluating its argument, and its message where it fails, changes nothing |
| `Isolation.ExecInStep` | basic-headers/AssertMacros.h:597-607 | two states that differ only in variables of that name further out than a declaration of it run every expanded statement in step, and those variables stay |
| `Isolation.ExpansionBound` | basic-headers/AssertMacros.h:597-607 | every expansion of user text mentions the name only inside its own declaration of it |
| `Exactness.Hygiene` | basic-headers/AssertMacros.h:597-607 | whatever an action contains, every enclosing use finds its copy of its error code unchanged |
| `Exactness.Capture` | basic-headers/AssertMacros.h:961-972 | for any noErr form with any argument, message and action, a debug build neither sees nor changes user variables with the name of the local: exit, calls, evaluations, messages and all other variables do not depend on them |
| `Exactness.CapturedVariable` | basic-headers/AssertMacros.h:961-972 | with such a variable as argument: when each build reacts |
| `Exactness.NegationIsNoErr` | basic-headers/AssertMacros.h:690-692 | negated forms, `__nCheck` too, do exactly what the noErr forms do, in production and where quiet |
| `Exactness.TellingNegationIsNoErr` | basic-headers/AssertMacros.h:690-692 | the telling ones react as the noErr forms in a debug build if and only if the code is 0 or no multiple of 2^bits, and then differ only in what they log |
| `Functions.FunctionFollows` | basic-headers/AssertMacros.h:60-63 | a run of either build of a function with exception labels does what the unexpanded function does |
| `Functions.SafeFunctionsAgree` | basic-headers/AssertMacros.h:60-63 | a function that meets no hazard, jumps taken, ends alike in both builds |
| `Functions.FunctionsAgree` | basic-headers/AssertMacros.h:60-63 | so does every function that keeps the rules |
| `Functions.EndsOnce` | basic-headers/AssertMacros.h:60-63 | a function ends in one way at most, whatever the bound on loops and jumps |
| `Functions.EndsAlike` | basic-headers/AssertMacros.h:49-74 | a function that keeps the rules ends with an exit, variables and calls in one build if and only if in the other |
| `Traces.RunIsTrace` | basic-headers/AssertMacros.h:60-63 | a function ends with an outcome if and only if a trace of sections does, each run by the small-step machine: the next section after one that completes, the first section of the name after a jump |
| `Traces.HandlerRuns` | basic-headers/AssertMacros.h:60-63 | a handler at the end of a function runs whether the body completes or jumps to it, from the state the body leaves |
| `Traces.RequireReachesHandler` | basic-headers/AssertMacros.h:650-686 | a Require form that fails skips the rest of the body and runs the handler at its label, in either build |
| `Traces.TracesAgree` | basic-headers/AssertMacros.h:49-74 | for every function that keeps the rules, on the machine: one build traces to an exit with some variables and calls if and only if the other does |
| `MacroText.ReadBack` | basic-headers/AssertMacros.h:589-646 | parsing the text of an unambiguous expanded statement gives it back and leaves what follows |
| `MacroText.ReadBackExactly` | basic-headers/AssertMacros.h:589-646 | it is given back if and only if no open `if` stands before an `else`, in it or after it |
| `TextMeaning.ReplacementSpellsExpansion` | basic-headers/AssertMacros.h:242-1193 | every replacement list, in both builds and for every action, followed by a semicolon spells the modelled expansion |
| `TextMeaning.ReplaceCloses` | basic-headers/AssertMacros.h:242-1193 | every expansion is one statement that needs a semicolon and leaves no open `if` |
| `TextMeaning.ParsesAsExpansion` | basic-headers/AssertMacros.h:242-1193 | preprocessing and parsing any unambiguous program gives its expansion |
| `TextMeaning.ElseBindsOutside` | basic-headers/AssertMacros.h:589-646 | in `if (c) M; else s` the else belongs to the outer `if`, for every macro use M |
| `TextMeaning.TextsAgree` | basic-headers/AssertMacros.h:49-74 | from source text to outcome: both builds parse, and their runs agree |
| `Machine.Runner.Run` | basic-headers/AssertMacros.h:677-686 | running in place gives the interpreter's exit and state |
| `Machine.Runner.RunDoWhile` | basic-headers/AssertMacros.h:677-686 | the same for `do ... while` |
| `Machine.Runner.RunItems` | basic-headers/AssertMacros.h:961-972 | a block in place, its locals gone at the end |
| `Machine.Runner.RunProgram` | basic-headers/AssertMacros.h:49-74 | only the log of an expanded disciplined program depends on the build |
| `SetUp.Preprocessor.CompleteVersions` | basic-headers/AvailabilityInternal.h:37-104 | the block's steps, in order, give the closed form of the final definitions |
| `SetUp.FinalValues` | basic-headers/AvailabilityInternal.h:37-104 | what the Mac, iPhone and DriverKit minimums and maximums are in the end: set by hand, they are kept, but for iPhone minimums below 2.0 or with a derived target; otherwise the compiler's and the defaults |
| `SetUp.DerivedValues` | basic-headers/AvailabilityInternal.h:51-79 | the same for tvOS, watchOS and bridgeOS |
| `SetUp.LeftAlone` | basic-headers/AvailabilityInternal.h:37-104 | the block changes no macro of the compiler and no table switch |
| `SetUp.Preprocessor.ReadHeader` | basic-headers/AvailabilityInternal.h:37-147 | which legacy tables are on in the end, from what was defined at the start |
| `SetUp.MinimumsAndMaximums` | basic-headers/AvailabilityInternal.h:87-104 | from every environment: when there is an iPhone minimum, that it is at least 2.0, and that Mac and iPhone minimums come with maximums |
| `SetUp.OtherMaximums` | basic-headers/AvailabilityInternal.h:51-79 | exactly when the other platforms' minimums come with maximums |
| `SetUp.TvWithoutMaximum` | basic-headers/AvailabilityInternal.h:51-59 | a tvOS minimum set by hand has none |
| `SetUp.DefaultMacRange` | basic-headers/AvailabilityInternal.h:87-92 | exactly when the default Mac range is nonempty |
| `SetUp.EmptyMacRange` | basic-headers/AvailabilityInternal.h:87-92 | for a minimum of 10.15.1 it is empty |
| `SetUp.CompleteTwice` | basic-headers/AvailabilityInternal.h:37-104 | going through the block again changes nothing |
| `SetUp.SelectionMatchesTables` | basic-headers/Availability.h:253-304 | from every environment, which platform is selected, and exactly when it is the one whose table is enabled |
| `SetUp.SelectedWithoutTable` | basic-headers/Availability.h:253-304 | a Mac minimum set by hand selects the Mac with no table enabled |
| `SetUp.CatalystHasBothTables` | basic-headers/AvailabilityInternal.h:122-139 | on Catalyst both tables are on, and both platforms are selected for a Mac that is not also treated as an iPhone |
| `Versions.MacCodesAreOrdered` | basic-headers/AvailabilityMacros.h:91-120 | the two-format Mac numbers, patch releases included, are injective and ordered as the versions |
| `Versions.MobileCodesAreOrdered` | basic-headers/Availability.h:168-246 | the same for iOS, tvOS and watchOS |
| `Versions.ListedConstants` | basic-headers/Availability.h:135-246 | the numbers of listed versions of both formats and of the mobile platforms |
| `Versions.SwiftCodeFits` | basic-headers/AvailabilityInternal.h:4662-4664 | no wrap-around in 64 bits if and only if the version is at most 18446744073.709.551.615 |
| `Versions.SwiftTestIsOrder` | basic-headers/AvailabilityInternal.h:4662-4668 | up to there the test is lexicographic order on X, Z, a, b with missing arguments as 0 |
| `Versions.SwiftWraps` | basic-headers/AvailabilityInternal.h:4662-4664 | 18446744074 is taken for older than 1 |
| `Classifier.WhatIsRejected` | basic-headers/AvailabilityMacros.h:146-162 | exactly which requests are errors, and what an accepted range is |
| `Classifier.AcceptedRange` | basic-headers/AvailabilityMacros.h:126-152 | the accepted range of every request |
| `Classifier.Defaults` | basic-headers/AvailabilityMacros.h:126-152 | the range with nothing given |
| `Classifier.PopulatedIs` | basic-headers/AvailabilityMacros.h:91-120 | a range of numbers holds an OS version if and only if the next version number from its minimum is at most its maximum |
| `Classifier.AvailableIsPromised` | basic-headers/AvailabilityMacros.h:256-264 | unavailable iff no OS in the range has it, weak iff some but not all, ordinary iff all; and for which ranges, read off their ends, this holds |
| `Classifier.WeakForNothing` | basic-headers/AvailabilityMacros.h:126-132 | a minimum of 1100 makes weak what every OS in the range has |
| `Classifier.DeprecationIsPromised` | basic-headers/AvailabilityMacros.h:286-292 | deprecated iff every OS in the range is at or past the deprecation, for functions and types; for which ranges this holds; otherwise as undeprecated |
| `Classifier.MissingWarning` | basic-headers/AvailabilityMacros.h:126-132 | a minimum of 1100 gets no warning where every OS in the range is past the deprecation |
| `Classifier.MistestedDeprecation` | basic-headers/AvailabilityMacros.h:852-858 | for which ranges an entry that tests an earlier version keeps the promise; for a minimum that is a version, iff it is not between the two |
| `Classifier.EarlyWarnings` | basic-headers/AvailabilityMacros.h:3992-3998 | a minimum of 10.12 is warned about 10.13 by both such entries |
| `Classifier.TenZeroWrittenOut` | basic-headers/AvailabilityMacros.h:217-232 | the written-out 10.0 definitions are what the tests give on every accepted range |
| `Classifier.WhoHasWeakImport` | basic-headers/AvailabilityMacros.h:167-173 | which compilers have the attribute, and from which minimum |
| `Classifier.WeakMarkIsPromised` | basic-headers/AvailabilityMacros.h:167-173 | on any compiler and for any range, exactly when what only some OS in the range have is what is marked weak |
| `Classifier.NoWeakMarkBelowTenTwo` | basic-headers/AvailabilityMacros.h:167-173 | no compiler marks it for a minimum of 10.1 |
| `Classifier.ClassesOnlyMoveForward` | basic-headers/AvailabilityMacros.h:256-292 | along any chain of rising ranges nothing becomes undeprecated, function or type, weak again or unavailable |
| `Dispatch.SelectsByCount` | basic-headers/Availability.h:492-492 | slot w+1 is the macro numbered by the argument count, for every window and list; past the window it is an argument |
| `Dispatch.NumberedInOrder` | basic-headers/AvailabilityInternal.h:4467-4618 | recursive chains and flat lists are both an in-order map over the platforms |
| `Dispatch.EntryMeans` | basic-headers/Availability.h:492-533 | every entry point on every argument list: that map, or an error, and exactly when |
| `Dispatch.NotedEntries` | basic-headers/Availability.h:513-520 | the deprecation families take a message or replacement and one to seven platforms; each attribute carries it and its own platform, in order |
| `Dispatch.PlatformEntries` | basic-headers/Availability.h:492-532 | the other families take one to seven platforms, `__API_UNAVAILABLE_BEGIN` six; each attribute carries its own platform and no message, in order |
| `Dispatch.HeadersExample` | basic-headers/Availability.h:507-507 | the example in the comment |
| `Regions.AttributeStack.BeginRegion` | basic-headers/Availability.h:494-494 | pushes one group holding one attribute per platform; when no macro is selected, an empty group stays pushed |
| `Regions.AttributeStack.Read` | basic-headers/Availability.h:494-533 | a whole command sequence gives the specified stack and declarations |
| `Regions.RegionsNest` | basic-headers/Availability.h:494-533 | nested regions restore the stack and each declaration carries exactly its open regions' attributes, in order |
| `Regions.OnlyUnmatchedEndFails` | basic-headers/Availability.h:495-533 | failure iff some prefix closes more than is open; otherwise the depth is the balance |
| `Regions.WellNestedIsText` | basic-headers/Availability.h:494-533 | every well-nested sequence is the text of nested regions |
| `Regions.TextIsWellNested` | basic-headers/Availability.h:494-533 | and every text of nested regions is well nested |
| `Regions.WellNestedRestores` | basic-headers/Availability.h:494-533 | every well-nested sequence restores the stack and adds the declarations of its nested regions, each with its open attributes |
| `Regions.OneReading` | basic-headers/Availability.h:494-533 | no other nested regions have that text |
| `Regions.SevenUnavailable` | basic-headers/Availability.h:532-532 | `__API_UNAVAILABLE_BEGIN` fails for seven platforms that `__API_AVAILABLE_BEGIN` takes |
| `ByteOrder.HostIndependentImage` | basic-headers/architecture/byte_order.h:219-235 | the Short, Int and LongLong forms: a converted integer stored in host order has the same image on every host |
| `ByteOrder.Portable` | basic-headers/architecture/byte_order.h:165-181 | the same forms: what one host converts and stores another loads and converts back |
| `ByteOrder.RoundTrip` | basic-headers/architecture/byte_order.h:273-361 | there and back keeps the low bytes |
| `ByteOrder.SwapTwice` | basic-headers/architecture/byte_order.h:43-77 | swapping twice is truncation |
| `ByteOrder.TruncatedIsRemainder` | basic-headers/architecture/byte_order.h:61-68 | the conversion to a fixed width is the remainder |
| `ByteOrder.LongRoundTrip` | basic-headers/architecture/byte_order.h:183-190 | the Long round trip is the identity iff the value fits in 32 bits |
| `ByteOrder.LongMemory` | basic-headers/architecture/byte_order.h:237-244 | the memory of a converted `unsigned long` on every host |
| `ByteOrder.LongImage` | basic-headers/architecture/byte_order.h:237-244 | it is the image of the value in the order asked for iff `long` has four bytes, or the value fits in them and the order is the host's, or it is 0 |
| `ByteOrder.LongPortable` | basic-headers/architecture/byte_order.h:183-190 | exactly which values one host hands to another as an `unsigned long` |
| `ByteOrder.FloatUnion.WriteNumber` | basic-headers/architecture/byte_order.h:87-87 | writing the float leaves the bytes beyond it |
| `ByteOrder.FloatUnion.WriteSf` | basic-headers/architecture/byte_order.h:99-99 | writing the long fills the union |
| `ByteOrder.NXConvertHostFloatToSwapped` | basic-headers/architecture/byte_order.h:79-89 | float in, long out, whatever the union held |
| `ByteOrder.NXConvertSwappedFloatToHost` | basic-headers/architecture/byte_order.h:91-101 | long in, float out, independent of what the union held |
| `ByteOrder.FloatRoundTrip` | basic-headers/architecture/byte_order.h:210-217 | the pattern comes back where the host is little-endian or `long` has four bytes, and 0 elsewhere |
| `ByteOrder.FloatImage` | basic-headers/architecture/byte_order.h:264-271 | the memory of a converted float, as wide as `long`, on every host |
| `ByteOrder.DoubleRoundTrip` | basic-headers/architecture/byte_order.h:255-262 | doubles come back on every host |
| `ByteOrder.DoubleImage` | basic-headers/architecture/byte_order.h:255-262 | a converted double has the image of the order asked for, on every host, and any host reads it back |
| `Layouts.WholeIsPacked` | basic-headers/MacTypes.h:636-668 | `whole` is the packed fields on every host |
| `Layouts.WholeIsPortable` | basic-headers/MacTypes.h:636-668 | it is host-independent, ordered as the fields, and what NXSwapBigIntToHost makes of the resource |
| `Layouts.WideReadsAsInteger` | basic-headers/MacTypes.h:131-147 | a `wide` read as a signed 64-bit integer is hi * 2^32 + lo in either layout |
| `Layouts.UnsignedWideReadsAsInteger` | basic-headers/MacTypes.h:136-151 | an `UnsignedWide` read as an unsigned one is too |
| `Witnesses.BreakInAction` | basic-headers/AssertMacros.h:589-608 | `__Verify_noErr_Action(1, break)` leaves the loop in production only |
| `Witnesses.ErrorLost` | basic-headers/AssertMacros.h:961-972 | `__Require_noErr(2^bits, bail)` jumps in production only |
| `Witnesses.NameCaptured` | basic-headers/AssertMacros.h:961-972 | a variable `evalOnceErrorCode` of 5 makes production jump only |
| `Witnesses.ActionCaptured` | basic-headers/AssertMacros.h:589-608 | `__Verify_noErr_Action(1, evalOnceErrorCode = 0)` sets such a variable in production only |
| `Witnesses.MessageCaptured` | basic-headers/AssertMacros.h:961-972 | `evalOnceErrorCode` as the string of a noErr form tells the copy, not the variable |
| `Witnesses.CheckAssigns` | basic-headers/AssertMacros.h:275-289 | `__Check(x = 1)` changes `x` in a debug build only |
| `Witnesses.CountsPart` | basic-headers/AssertMacros.h:275-289 | `__Check(x = 1); if (x) __Verify(1);` evaluates two arguments in a debug build and none in production |
| `ConversionWitnesses.LongNotBigEndian` | basic-headers/architecture/byte_order.h:237-244 | on a little-endian host with an eight-byte `long`, `NXSwapHostLongToBig(1)` does not have the big-endian image of 1 |
| `ConversionWitnesses.FloatComesBackZero` | basic-headers/architecture/byte_order.h:210-217 | on a big-endian host with an eight-byte `long`, every nonzero float comes back as 0 |

## Left out

- Message formatting: a message is one log entry with the quoted text, label, string and code. The default `DEBUG_ASSERT_MESSAGE` evaluates its string twice and prints neither label nor code; with pure strings, as the rules ask, this is invisible.
- Redefinition of single macros before the header, `DEBUG_ASSERT_PRODUCTION_CODE` itself, `__Check_Compile_Time` and the old-name aliases: configuration, compiler effects and renamings.
- C beyond the model: unsigned types, pointers and floating point in conditions, `switch`, labels inside nested statements, orders of evaluation other than left to right, and expression grammar (replacement lists put arguments in parentheses). Sums and differences wrap around at the width of their type, which is given.
- Discipline.DisciplinedBuildsAgree: the run starts with every variable holding a value of its declared width, as it does in C; so with the results for functions, texts and `Machine.Runner.RunProgram`.
- Functions.FunctionsAgree: labels stand at the top level of a function, after its body.
- The attribute tables of `AvailabilityInternal.h` and the `__AVAILABILITY_MACROS_USES_AVAILABILITY` branches of `AvailabilityMacros.h` that use them: finite data.
- Compilers without the availability attribute, private headers found by `__has_include`, the platform expanders (`__API_AVAILABLE_PLATFORM_...`) and pragma spelling.
- Macros are modelled by value: that a definition names another macro, and diagnostics for redefinitions in the set-up block, are not.
- Versions.MacCodesAreOrdered: up to 10.9 the compiler is taken to number a patch release in one digit, 10.9.5 as 1095, which the headers do not spell out; releases past the ninth, such as 10.4.11, have no number of their own.
- Classifier: the `#warning` for Intel minimums below 10.4, and which compilers have the `unavailable` and `deprecated` attributes.
- `libkern/OSByteOrder.h` is not part of this model; its swaps are taken as byte reversal and its Host/Big/Little forms as swap or identity by byte order.
- Float and double values: bit patterns only. `NXHostByteOrder` on hosts of unknown order.
- `ConditionalMacros.h`, `alignment.h` and the sources outside `basic-headers`: configuration, declarations, or parts of Darling this model does not touch.
