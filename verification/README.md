# Ockam, modelled and proved in Dafny

This project models four parts of the Rust implementation of Ockam and proves what they promise.
`dafny verify dfyconfig.toml` checks all of it.

**The policy language** (`abac/`). Attribute-based access control evaluates small Lisp expressions.
The evaluator, the typed equality and ordering, the printer and the parser are all loops over explicit
stacks. Each has a recursive specification (`Semantics.Eval`, `Compare.Order`, `Printer.Print`,
`Grammar.Parse`), each loop is a method proved to compute it, and the laws are proved about the
specification. `OrderMeaning`, `Operators` and `ParseMeaning` say what the specifications come to on values, operator
names and tokens written out. The evaluator is also a state machine (`Machine`), so that it can be said, of every state
it reaches, that no pop meets an empty stack, and that it halts exactly when the recursive evaluator has
an answer. A lookup depth stands in for termination there: bindings are evaluated when they are looked up,
and an expression that looks up a cycle has no answer. `Halting` shows that the number of bindings is depth
enough, so that halting is decided by evaluating that deep.

**Addresses** (`multiaddr/`). A `MultiAddr` is a byte buffer with a moving start that serves as a
double-ended queue of protocol values. The model follows the buffer: varints, UTF-8 (section 4 of
RFC 3629), the codec for each protocol, both iterators, and the operations that cut and extend the buffer
in place. `Codec` and `TextForm` prove that the binary and the textual form belong to lists of values,
and `AddressDeque` that a whole sequence of operations does to the buffer what it does to a list.
`WireMeaning` and `Utf8Meaning` write the forms out.

**The executor and its channel** (`executor/`). The cooperative scheduler is a state machine whose steps
are polls, wakes and spawns, in any order the source allows. `Executors` has the loops themselves: what they
do is a function of what the polls do, and a run of the machine. `System` adds any number of channels with
their stored wakers and shows that no wakeup is lost and that a receiver that can go on does so within a
bounded number of rounds.

**Pipes and channels** (`pipe/`). A pipe sender buffers until it is initialised; a channel is a pair of
workers, each with a sender and a receiver, that rewrite the routes of messages. `ChannelRun` is the network
of both ends with messages under way in any order, and keeps a book of which user message each of them
is. `ChannelTheorem` starts when the connecting end announces itself, before there is anything at
the far side, and states what every run delivers; `ChannelProgress` says how many moves that takes, and
`ChannelOrder` that messages stay in order if every hop keeps them so.

## What the model takes as given

- The lexer hands over tokens; `Printer.Lexer` says as which token, of whatever kind, it reads the text of each
  identifier, and the round trips hold exactly where that is a token for the identifier (`RoundTrip.Lexes`).
  Numbers, strings and booleans are read back from their printed text.
- Floats are real numbers, both infinities and NaN. Strings of the policy language are sequences of code
  points, whose order is the order of their UTF-8 bytes.
- The repository of attributes is a parameter: what it holds for the identity, in key order, with `None` for
  bytes that are not UTF-8. Keys are distinct, as they are in the map of the source.
- Varints follow the unsigned-varint specification: minimal, and in range for 32 or 64 bits.
- A value of a fixed-length protocol has that length (`Codec.Sized`): the source copies it into an array of that
  length.
- Texts of IP addresses are a parameter, `TextForm.Ips`, in which reading undoes showing
  (`TextForm.InverseExists` gives an instance).
- What a poll does is a parameter of the executor: the ids it wakes, the tasks it spawns, and whether the
  future is ready. Polls are atomic with respect to each other.
- Packing a message into a pipe message and unpacking it are inverse, so a pipe message holds the message.
  Random addresses of one channel end do not collide (`ChannelRun.Distinct`). A transport takes a message along
  the hops of its route and adds the way back to the return route (`ChannelEnds.Cross`).

## Where the code and its promises differ

The model follows the code in each case.

- `and` and `or` do not check that their last argument is a boolean, and `!=` takes any number of arguments
  (`Refinement.ExecShort`, `Refinement.ExecStrict`).
- The parser accepts closing brackets that nothing opened. `Grammar.AcceptedExactly` says exactly what it
  accepts.
- The identifier pattern ends in a range from `+` to `@`, which includes `:`, `;`, `,` and the digits
  (`Grammar.IdentRest`).
- Printing and parsing undo each other only where the parser does not reject mixed sequences
  (`RoundTrip.PrintThenParse`, `RoundTrip.MixedSequenceIsRefused`).
- Any word of an identifier token becomes an identifier and is printed bare, so one with the word "true" is parsed
  back as a boolean. `RoundTrip.ParsedSurvives` says exactly which parsed expressions survive, and
  `RoundTrip.IdentifierComesBackAsBoolean` is one that does not.
- An attribute is skipped when its name without the "subject." prefix is bound already, although it is stored
  with the prefix (`AccessControl.CreateAuthorizes`, `AccessControl.SubjectNamesCanBeBlocked`).
- Adding at the front of an address does not reset the start of the buffer. `MultiAddrs.PushFrontExactly`
  says exactly when the result is right, `MultiAddrs.RotatesWhenSafe` when a caller may rely on it, and
  `MultiAddrs.PushFrontCanCorrupt` is a run after which it is not.
- A send on a full channel loses the value and closes the channel. Values are lost in no other way
  (`System.LosesOnlyByOverflow`, `System.SeventeenSendsLose`).
- Texts of an address may hold slashes in its binary form but not in its textual one
  (`StrIters.DisplayThenParse`, `TextForm.SlashIsRefused`).

## Model

| member | source | states |
|---|---|---|
| `Compare.CompareExprs` | implementations/rust/ockam/ockam_abac/src/expr.rs:105-147 | the loop over a stack of pairs returns the recursive ordering: containers by length first, then by their first unequal elements, with the first error |
| `Compare.Equals` | implementations/rust/ockam/ockam_abac/src/expr.rs:70-101 | the loop over a stack of pairs returns the answer that agrees with the ordering on every pair: true exactly for "equal", false for every other ordering, and the same error |
| `Compare.PushElems` | implementations/rust/ockam/ockam_abac/src/expr.rs:84-86 | pushing element pairs in reverse makes the stack compare them first to last before anything below |
| `Compare.OrderFlips` | implementations/rust/ockam/ockam_abac/src/expr.rs:105-147 | comparing in the other direction gives the dual result, with the error pair mirrored, at any nesting |
| `Compare.OrderComposes` | implementations/rust/ockam/ockam_abac/src/expr.rs:105-147 | "less" and "greater" are transitive and "equal" is a congruence for both; composing two results never errs on the outer pair |
| `Compare.OrderEqual` | implementations/rust/ockam/ockam_abac/src/expr.rs:105-147 | a comparison is "equal" if and only if both expressions are the same and hold no NaN |
| `Compare.OrderTotal` | implementations/rust/ockam/ockam_abac/src/expr.rs:105-147 | without NaN, a comparison that does not err gives an ordering |
| `Compare.SameIsSymmetricAndTransitive` | implementations/rust/ockam/ockam_abac/src/expr.rs:70-101 | `equals` is symmetric, errors mirrored, and transitive |
| `Compare.SameAsItself` | implementations/rust/ockam/ockam_abac/src/expr.rs:70-101 | `equals` of an expression with itself never errs and is true if and only if it holds no NaN |
| `Compare.StringsEqual` | implementations/rust/ockam/ockam_abac/src/expr.rs:112 | strings compare "equal" exactly when they are the same |
| `OrderMeaning.IntsByValue` | implementations/rust/ockam/ockam_abac/src/expr.rs:115 | numbers compare by value: the smaller is less |
| `OrderMeaning.FalseBelowTrue` | implementations/rust/ockam/ockam_abac/src/expr.rs:113 | false is less than true |
| `OrderMeaning.FloatsByValue` | implementations/rust/ockam/ockam_abac/src/expr.rs:116 | floats compare by value with the infinities outside, and not at all with NaN |
| `OrderMeaning.StringsByCodePoint` | implementations/rust/ockam/ockam_abac/src/expr.rs:112-114 | a text or identifier is less if and only if it is a proper prefix, or has the smaller code point at the first difference |
| `OrderMeaning.ShorterIsLess` | implementations/rust/ockam/ockam_abac/src/expr.rs:117-138 | a shorter sequence or list is less, whatever it holds |
| `OrderMeaning.FirstDifferenceDecides` | implementations/rust/ockam/ockam_abac/src/expr.rs:117-143 | of two of the same length the first elements that are not equal decide, be it by an error |
| `OrderMeaning.KindsMustAgree` | implementations/rust/ockam/ockam_abac/src/expr.rs:139 | expressions of different kinds cannot be compared, and the error names both in order |
| `Refinement.Exec` | implementations/rust/ockam/ockam_abac/src/eval.rs:37-263 | from any two stacks, the machine leaves the value of one expression on the argument stack and touches nothing else, or halts with its first error, or still runs after as many steps as the evaluator was given lookups |
| `Refinement.ExecAll` | implementations/rust/ockam/ockam_abac/src/eval.rs:154-168 | pushed arguments are evaluated left to right and their values end up in order on the argument stack |
| `Refinement.ExecStrict` | implementations/rust/ockam/ockam_abac/src/eval.rs:210-262 | `not`, `=`, `!=`, `<`, `>` and `member?` consume exactly their own evaluated arguments |
| `Refinement.ExecShort` | implementations/rust/ockam/ockam_abac/src/eval.rs:170-209 | `and` and `or` discard exactly their own pending arguments, and leave an unchecked last argument as the answer |
| `Refinement.ExecIf` | implementations/rust/ockam/ockam_abac/src/eval.rs:219-230 | `if` evaluates its test and then exactly one of its two branches |
| `Refinement.Final` | implementations/rust/ockam/ockam_abac/src/eval.rs:265-267 | an evaluation that has an outcome ends the loop with exactly one argument, its value, or with its error |
| `Refinement.NeverPanics` | implementations/rust/ockam/ockam_abac/src/eval.rs:269-276 | in every reachable state, for every expression and every environment, no pop meets an empty stack and no operation takes more than there is |
| `Refinement.HaltsWithTheAnswer` | implementations/rust/ockam/ockam_abac/src/eval.rs:10-267 | the machine halts with an answer if and only if the recursive evaluator has that answer at some lookup depth, in every environment |
| `Refinement.HaltsOnce` | implementations/rust/ockam/ockam_abac/src/eval.rs:10-267 | a run has at most one final state |
| `Evaluator.Evaluate` | implementations/rust/ockam/ockam_abac/src/eval.rs:10-267 | the loop over both stacks returns the value or the first error of the recursive, left-to-right, short-circuiting evaluator |
| `Evaluator.Perform` | implementations/rust/ockam/ockam_abac/src/eval.rs:38-262 | one turn of the loop moves both stacks as the machine says, given only that the machine does not panic |
| `Evaluator.VisitCall` | implementations/rust/ockam/ockam_abac/src/eval.rs:42-157 | the operator dispatch with its arity checks: what is pushed for each operator, or the error |
| `Evaluator.ShortCircuit` | implementations/rust/ockam/ockam_abac/src/eval.rs:170-209 | the `And(n)` and `Or(n)` branches move both stacks as the machine says |
| `Evaluator.Branch` | implementations/rust/ockam/ockam_abac/src/eval.rs:219-230 | the `If` branch keeps the chosen branch and drops the other |
| `Evaluator.EvalPredicate` | implementations/rust/ockam/ockam_abac/src/eval.rs:278-294 | replaces the `n` topmost arguments by whether each adjacent pair is related; the first pair that is not, or that errs, decides |
| `Evaluator.MemberOf` | implementations/rust/ockam/ockam_abac/src/eval.rs:238-257 | true as soon as an element equals; the first comparison error before that is returned |
| `Evaluator.AllExist` | implementations/rust/ockam/ockam_abac/src/eval.rs:135-151 | stops at the first unbound identifier; an argument that is no identifier errs only if it comes before |
| `Laws.EvaluatingTwice` | implementations/rust/ockam/ockam_abac/src/eval.rs:10-267 | every answer is a value, and evaluates to itself in any environment |
| `Laws.ChainMeans` | implementations/rust/ockam/ockam_abac/src/eval.rs:278-294 | a comparison operator is true if and only if every adjacent pair is related; otherwise the first pair that is not decides |
| `Laws.ContainsMeans` | implementations/rust/ockam/ockam_abac/src/eval.rs:238-257 | `member?` is false if and only if every element can be compared and differs; otherwise the first that does not decides |
| `Laws.ShortMeans` | implementations/rust/ockam/ockam_abac/src/eval.rs:45-84 | `and` and `or` are decided by the first argument that is not the value they go on with; no later argument matters, even one that errs or never ends |
| `Operators.AndMeansAll` | implementations/rust/ockam/ockam_abac/src/eval.rs:45-64 | "and" of booleans is true if and only if all are, and so of none |
| `Operators.OrMeansSome` | implementations/rust/ockam/ockam_abac/src/eval.rs:65-84 | "or" of booleans is true if and only if some is, and so not of none |
| `Operators.AndStops` | implementations/rust/ockam/ockam_abac/src/eval.rs:170-189 | "and" is decided by the first argument that is not true, or by the last; one before the last that is no boolean is an error |
| `Operators.OrStops` | implementations/rust/ockam/ockam_abac/src/eval.rs:190-209 | "or" is decided by the first argument that is not false, or by the last; one before the last that is no boolean is an error |
| `Operators.IfChooses` | implementations/rust/ockam/ockam_abac/src/eval.rs:91-102 | "if" takes three arguments, evaluates the test and gives the branch it chooses; a test that is no boolean is an error |
| `Operators.NotNegates` | implementations/rust/ockam/ockam_abac/src/eval.rs:85-90 | "not" takes one argument and negates a boolean; anything else is an error |
| `Operators.LessMeansAscending` | implementations/rust/ockam/ockam_abac/src/eval.rs:103-109 | "<" takes at least two arguments and is true if and only if each is less than the next; the first pair that is not decides |
| `Operators.GreaterMeansDescending` | implementations/rust/ockam/ockam_abac/src/eval.rs:110-116 | ">" takes at least two arguments and is true if and only if each is greater than the next; the first pair that is not decides |
| `Operators.EqualMeansAllTheSame` | implementations/rust/ockam/ockam_abac/src/eval.rs:117-123 | "=" takes at least two arguments and is true if and only if neighbours are equal; the first pair that is not decides |
| `Operators.NotEqualMeansSomeDiffer` | implementations/rust/ockam/ockam_abac/src/eval.rs:124-127 | "!=" is the opposite of "=", for any number of arguments |
| `Operators.NumbersCompare` | implementations/rust/ockam/ockam_abac/src/eval.rs:103-127 | on two numbers the four comparisons are those of their values |
| `Operators.MemberMeansContained` | implementations/rust/ockam/ockam_abac/src/eval.rs:128-134 | "member?" takes a value and a sequence, and is true if an element equals and none before it cannot be compared |
| `Operators.ExistsMeansAllBound` | implementations/rust/ockam/ockam_abac/src/eval.rs:135-151 | "exists?" is true if and only if all its identifiers are bound, and looks at none beyond the first that is not |
| `Operators.UnknownNames` | implementations/rust/ockam/ockam_abac/src/eval.rs:152 | any other name is unknown |
| `Operators.CallsNeedAName` | implementations/rust/ockam/ockam_abac/src/eval.rs:158-161 | a list that does not start with a name is an error |
| `Operators.PlainExpressions` | implementations/rust/ockam/ockam_abac/src/eval.rs:39-41 | scalars and the empty list are their own values; an identifier is its binding, evaluated, or unbound |
| `Operators.SequencesEvaluate` | implementations/rust/ockam/ockam_abac/src/eval.rs:163-168 | a sequence evaluates its elements, in order |
| `Operators.SequencesFail` | implementations/rust/ockam/ockam_abac/src/eval.rs:163-168 | and fails with the first that fails |
| `Operators.StrictCallsFail` | implementations/rust/ockam/ockam_abac/src/eval.rs:154-156 | an operator that evaluates all its arguments fails with the first that fails |
| `Laws.Weaken` | implementations/rust/ockam/ockam_abac/src/env.rs:17-30 | without `exists?` in the expression and the bindings it reaches, every outcome other than an unbound identifier stays the same in every larger environment |
| `Laws.ExistenceSeesNewBindings` | implementations/rust/ockam/ockam_abac/src/eval.rs:135-151 | with `exists?` the previous law fails: one new binding turns an answer round |
| `Laws.RankedHasAnOutcome` | implementations/rust/ockam/ockam_abac/src/eval.rs:39 | if bindings only refer to bindings of smaller rank, every expression has an outcome within a bound on the ranks |
| `Laws.RankedHalts` | implementations/rust/ockam/ockam_abac/src/eval.rs:37-263 | in every such environment the machine halts on every expression |
| `Laws.EvaluateRanked` | implementations/rust/ockam/ockam_abac/src/eval.rs:10-267 | in every such environment the loop returns, and returns what the recursive evaluator says |
| `Laws.DepthDoesNotMatter` | implementations/rust/ockam/ockam_abac/src/eval.rs:10-267 | the lookup depth at which an outcome is found does not change it |
| `Laws.CyclesNeverHalt` | implementations/rust/ockam/ockam_abac/src/eval.rs:39 | an identifier bound to itself is looked up for ever |
| `Halting.BindingsSuffice` | implementations/rust/ockam/ockam_abac/src/eval.rs:39 | an expression that has an outcome at any lookup depth has the same one at the depth that is the number of bindings: needing more would take that many different identifiers |
| `Halting.HaltsExactly` | implementations/rust/ockam/ockam_abac/src/eval.rs:10-267 | the machine halts with an answer if and only if the recursive evaluator has that answer at the depth that is the number of bindings, so halting can be decided beforehand |
| `Halting.RunsForEver` | implementations/rust/ockam/ockam_abac/src/eval.rs:10-267 | otherwise the machine is still running after any number of steps |
| `Halting.CyclesCanBeAvoided` | implementations/rust/ockam/ockam_abac/src/eval.rs:39 | with an identifier bound to itself, expressions that do not look it up have answers |
| `Parser.ParseTokens` | implementations/rust/ockam/ockam_abac/src/parser.rs:26-183 | on every token stream the shift/reduce loop gives the result or the first error of the parser over nested frames |
| `Parser.PopGroup` | implementations/rust/ockam/ockam_abac/src/parser.rs:133-148 | popping a group yields the values of the innermost level in order; a pending read or a closing bracket is never met; with nothing open the loop ends at the bottom of the stack |
| `Parser.Reduce` | implementations/rust/ockam/ockam_abac/src/parser.rs:133-169 | one closing bracket: the reduced stack, the mismatched opener or the mixed sequence types |
| `Parser.CheckTypes` | implementations/rust/ockam/ockam_abac/src/parser.rs:162-166 | the first adjacent pair of a sequence that cannot be compared |
| `Parser.ReadToken` | implementations/rust/ockam/ockam_abac/src/parser.rs:51-131 | each token pushes the right operations or gives the error for that token |
| `Grammar.TokensAreSymbols` | implementations/rust/ockam/ockam_abac/src/parser.rs:51-131 | tokens are accepted if and only if each can be read and the symbols they stand for are accepted, with the same values |
| `Grammar.AcceptedExactly` | implementations/rust/ockam/ockam_abac/src/parser.rs:49-182 | a symbol sequence is accepted with given values if and only if it is the written form of those values, well-typed, with some leading open brackets left out; so unclosed and mismatched brackets are always rejected |
| `Grammar.ReadShown` | implementations/rust/ockam/ockam_abac/src/parser.rs:49-182 | reading a written well-typed expression, at any depth and in front of anything, adds exactly that expression |
| `Grammar.FinishSound` | implementations/rust/ockam/ockam_abac/src/parser.rs:162-168 | a closed group is accepted if and only if it makes a well-typed expression |
| `Grammar.DropFrames` | implementations/rust/ockam/ockam_abac/src/parser.rs:133-169 | leaving out leading open brackets does not change what is accepted or its value |
| `ParseMeaning.TokensStandFor` | implementations/rust/ockam/ockam_abac/src/parser.rs:54-110 | what each kind of token is read as, with the range of numbers |
| `ParseMeaning.IdentifierCharacters` | implementations/rust/ockam/ockam_abac/src/parser.rs:20 | the characters of an identifier, first and later, by code point |
| `ParseMeaning.WordsStandFor` | implementations/rust/ockam/ockam_abac/src/parser.rs:111-128 | other keywords and reserved words are identifiers if and only if they have those characters |
| `ParseMeaning.BadTokenIsReported` | implementations/rust/ockam/ockam_abac/src/parser.rs:51-131 | a token that cannot be read is reported with its own error |
| `ParseMeaning.SeveralMakeAList` | implementations/rust/ockam/ockam_abac/src/parser.rs:175-182 | no expression gives nothing, one gives itself, and several at the top level make one list of them in order |
| `ParseMeaning.UnclosedIsReported` | implementations/rust/ockam/ockam_abac/src/parser.rs:170-171 | a bracket that is not closed is reported by its kind |
| `ParseMeaning.MismatchIsReported` | implementations/rust/ockam/ockam_abac/src/parser.rs:139-157 | a bracket closed by one of the other kind is reported by the kind that was opened |
| `ParseMeaning.PrintLaysOut` | implementations/rust/ockam/ockam_abac/src/expr.rs:273-299 | expressions are printed in brackets of their kind with one blank between elements and none elsewhere |
| `ParseMeaning.TwoLeaves` | implementations/rust/ockam/ockam_abac/src/expr.rs:273-299 | a list and a sequence of two leaves, token by token |
| `Printer.Display` | implementations/rust/ockam/ockam_abac/src/expr.rs:241-305 | the printing loop over a stack writes the tokens of the recursive printer, blanks between elements included |
| `Printer.PushSpaced` | implementations/rust/ockam/ockam_abac/src/expr.rs:273-296 | pushing elements and separators in reverse |
| `RoundTrip.PrintThenParse` | implementations/rust/ockam/ockam_abac/src/parser.rs:26-183 | for every expression and every lexer, printing and then parsing gives the expression back if and only if adjacent elements of all its sequences can be compared and the lexer reads the text of each of its identifiers as that identifier |
| `RoundTrip.MixedSequenceIsRefused` | implementations/rust/ockam/ockam_abac/src/parser.rs:162-166 | an expression on which it fails: a sequence of a number and a text is printed but refused when parsed |
| `RoundTrip.ParsedSurvives` | implementations/rust/ockam/ockam_abac/src/parser.rs:26-183 | what the parser returns, for any tokens at all, survives being printed and parsed if and only if the lexer reads the text of each of its identifiers as that identifier |
| `RoundTrip.IdentifierComesBackAsBoolean` | implementations/rust/ockam/ockam_abac/src/parser.rs:99-110 | a token on which it does not: an identifier token with the word "true" is parsed as an identifier, whose printed text is parsed as a boolean |
| `RoundTrip.PrintedIsShown` | implementations/rust/ockam/ockam_abac/src/expr.rs:272 | the printed text is read as the symbols of the expression if and only if the lexer reads its identifiers back, whatever else it makes of them |
| `RoundTrip.StrayCloserIsAccepted` | implementations/rust/ockam/ockam_abac/src/parser.rs:133-148 | a closing bracket that nothing opened is accepted and wraps what came before it |
| `AccessControl.IsIdentityAuthorized` | implementations/rust/ockam/ockam_abac/src/attribute_access_control.rs:71-144 | authorizes if and only if the policy evaluates to the boolean true in the populated environment; an error or any other value refuses, and an unavailable repository is an error |
| `AccessControl.PutAll` | implementations/rust/ockam/ockam_abac/src/attribute_access_control.rs:75-109 | the loop over the attributes populates the environment in key order |
| `AccessControl.PopulatedExactly` | implementations/rust/ockam/ockam_abac/src/attribute_access_control.rs:75-109 | the bindings afterwards are exactly the given ones and the attributes that are UTF-8 and whose unprefixed key was not bound, the latter winning |
| `AccessControl.EnvironmentIsSafe` | implementations/rust/ockam/ockam_abac/src/attribute_access_control.rs:75-112 | `subject.identifier` is the identity and no binding outside "subject." changes, whatever the attributes |
| `AccessControl.WithoutAttributes` | implementations/rust/ockam/ockam_abac/src/attribute_access_control.rs:72-112 | an identity without stored attributes is known by `subject.identifier` alone |
| `AccessControl.CreateAuthorizes` | implementations/rust/ockam/ockam_abac/src/attribute_access_control.rs:54-66 | the control made for a name and a value authorizes if and only if the stored attribute of that name is that text and was not skipped; the name "identifier" stands for the identity |
| `AccessControl.PlainNamesAreNotBlocked` | implementations/rust/ockam/ockam_abac/src/attribute_access_control.rs:87-96 | an attribute whose name is outside "subject." is never skipped |
| `AccessControl.SubjectNamesCanBeBlocked` | implementations/rust/ockam/ockam_abac/src/attribute_access_control.rs:87-96 | one inside it can be: two attributes, both valid, of which the second is not authorized by its own value |
| `Varint.DecodeEncode` | implementations/rust/ockam/ockam_multiaddr/src/proto.rs:52-57 | a number is read back from its encoding, whatever follows |
| `Varint.EncodeDecode` | implementations/rust/ockam/ockam_multiaddr/src/iter.rs:51 | what decodes is the one encoding of its number |
| `WireMeaning.VarintGroups` | implementations/rust/ockam/ockam_multiaddr/src/proto.rs:53-55 | a varint is written in groups of seven bits, lowest first, with the high bit on all but the last |
| `WireMeaning.VarintLength` | implementations/rust/ockam/ockam_multiaddr/src/proto.rs:53-55 | and in no more groups than the number needs |
| `WireMeaning.VarintErrors` | implementations/rust/ockam/ockam_multiaddr/src/iter.rs:70-73 | input that ends inside a number and a number with an empty last group are errors of their own |
| `Utf8.CutAround` | implementations/rust/ockam/ockam_multiaddr/src/codec.rs:15-20 | a text cut at a one-byte character gives texts on both sides |
| `Utf8Meaning.TextExactly` | implementations/rust/ockam/ockam_multiaddr/src/proto.rs:183-186 | bytes are accepted as text if and only if they are the UTF-8 encoding of a sequence of Unicode scalar values |
| `Codec.NextReadsWrite` | implementations/rust/ockam/ockam_multiaddr/src/codec.rs:88-105 | a written value is read back by one iterator step, whatever follows |
| `Codec.WriteOfNext` | implementations/rust/ockam/ockam_multiaddr/src/codec.rs:23-68 | what one iterator step reads is the written value in front of the remainder, and only the UTF-8 check can still fail |
| `Codec.Writable` | implementations/rust/ockam/ockam_multiaddr/src/codec.rs:88-105 | writing succeeds if and only if the value is valid and its code registered; a registered standard code fails for its text, any other as unregistered |
| `Codec.ReadAllOfWriteAll` | implementations/rust/ockam/ockam_multiaddr/src/lib.rs:343-361 | every list of valid values is read back from its bytes |
| `Codec.WriteAllOfReadAll` | implementations/rust/ockam/ockam_multiaddr/src/lib.rs:343-361 | every accepted input is the bytes of the valid list read from it |
| `Codec.BytesAreLists` | implementations/rust/ockam/ockam_multiaddr/src/lib.rs:343-361 | the binary form is a bijection between lists of valid values and accepted inputs |
| `WireMeaning.FixedProtocols` | implementations/rust/ockam/ockam_multiaddr/src/proto.rs:32-131 | the codes, prefixes and lengths of ip4, ip6 and tcp |
| `WireMeaning.TextProtocols` | implementations/rust/ockam/ockam_multiaddr/src/proto.rs:206-212 | the codes and prefixes of the text protocols |
| `WireMeaning.NoOtherProtocols` | implementations/rust/ockam/ockam_multiaddr/src/codec.rs:66 | no other code is known |
| `WireMeaning.CodesAre32Bits` | implementations/rust/ockam/ockam_multiaddr/src/iter.rs:51-53 | a code of 32 bits can be registered, a larger one overflows |
| `WireMeaning.LengthsAre64Bits` | implementations/rust/ockam/ockam_multiaddr/src/codec.rs:59-62 | a length of 64 bits asks for so many bytes, a larger one overflows |
| `WireMeaning.FirstErrorIsReported` | implementations/rust/ockam/ockam_multiaddr/src/lib.rs:346-354 | behind valid values an error of the iterator is the error of the whole |
| `WireMeaning.InvalidTextIsReported` | implementations/rust/ockam/ockam_multiaddr/src/lib.rs:351-353 | a text that is not UTF-8 is reported by its code, wherever it stands |
| `WireMeaning.WrittenOut` | implementations/rust/ockam/ockam_multiaddr/src/proto.rs:148-202 | a port follows its code, high byte first; a text follows its code and its length; byte by byte |
| `BytesIters.BytesIter.Next` | implementations/rust/ockam/ockam_multiaddr/src/iter.rs:47-75 | yields the next value with its start offset and moves behind it, or yields the error once and then ends |
| `BytesIters.BytesIter.NextValid` | implementations/rust/ockam/ockam_multiaddr/src/lib.rs:767-773 | over the bytes of valid values the "valid protocol" expectation holds and the next value is yielded |
| `MultiAddrs.LastItem` | implementations/rust/ockam/ockam_multiaddr/src/lib.rs:438 | iterating to the end yields the last value and the offset at which it starts |
| `MultiAddrs.MultiAddr.constructor` | implementations/rust/ockam/ockam_multiaddr/src/lib.rs:305-311 | a new address is empty |
| `MultiAddrs.MultiAddr.Clone` | implementations/rust/ockam/ockam_multiaddr/src/lib.rs:261-289 | the clone holds the same values in the remaining bytes only, with the start at zero |
| `MultiAddrs.MultiAddr.PushBackValue` | implementations/rust/ockam/ockam_multiaddr/src/lib.rs:396-402 | adds the value at the end; a value that cannot be written changes nothing |
| `MultiAddrs.MultiAddr.PushFrontValue` | implementations/rust/ockam/ockam_multiaddr/src/lib.rs:418-428 | rebuilds the buffer but keeps the start; the address is right afterwards if and only if the removed bytes end with the new ones or, where they are shorter, continue them |
| `MultiAddrs.PushFrontExactly` | implementations/rust/ockam/ockam_multiaddr/src/lib.rs:420-423 | the visible bytes are the new ones followed by the old if and only if the removed bytes end with the new ones or, where they are shorter, the new ones end with them and repeat themselves at that distance |
| `MultiAddrs.RotatesWhenSafe` | implementations/rust/ockam/ockam_multiaddr/src/lib.rs:420-423 | that is so for an address that has lost nothing from its front, and for one that has just lost this very value |
| `MultiAddrs.PushAfterPop` | implementations/rust/ockam/ockam_multiaddr/src/lib.rs:418-428 | for any two values of the same encoded length: add one, remove it, add the other at the front; the address shows the removed one, and is right if and only if they are the same |
| `MultiAddrs.PushFrontCanCorrupt` | implementations/rust/ockam/ockam_multiaddr/src/lib.rs:418-428 | a run on which it fails: add port 1, remove it, add port 2 at the front; the address is not valid and shows port 1 |
| `MultiAddrs.MultiAddr.PopBack` | implementations/rust/ockam/ockam_multiaddr/src/lib.rs:433-451 | returns and removes the last value |
| `MultiAddrs.MultiAddr.PopFront` | implementations/rust/ockam/ockam_multiaddr/src/lib.rs:454-470 | returns the first value and moves the start behind it |
| `MultiAddrs.MultiAddr.DropFirst` | implementations/rust/ockam/ockam_multiaddr/src/lib.rs:473-481 | moves the start behind the first value |
| `MultiAddrs.MultiAddr.DropLast` | implementations/rust/ockam/ockam_multiaddr/src/lib.rs:486-494 | cuts the last value off |
| `MultiAddrs.MultiAddr.TryExtend` | implementations/rust/ockam/ockam_multiaddr/src/lib.rs:522-530 | adds values until one cannot be written, with the error of that one; those before it stay |
| `MultiAddrs.MultiAddr.Items` | implementations/rust/ockam/ockam_multiaddr/src/lib.rs:509-514 | iteration yields exactly the list of values |
| `MultiAddrs.MultiAddr.Split` | implementations/rust/ockam/ockam_multiaddr/src/lib.rs:567-574 | the first `at` values and the others, and neither expectation fails |
| `MultiAddrs.MultiAddr.ConcatMut` | implementations/rust/ockam/ockam_multiaddr/src/lib.rs:576-582 | adds the values of another address |
| `MultiAddrs.MultiAddr.Matches` | implementations/rust/ockam/ockam_multiaddr/src/lib.rs:542-565 | true if and only if there are enough values from `start` on and each code is accepted |
| `MultiAddrs.MatchMeans` | implementations/rust/ockam/ockam_multiaddr/src/lib.rs:551-562 | a match accepts its one code, or any of its several |
| `MultiAddrs.BytesOf` | implementations/rust/ockam/ockam_multiaddr/src/lib.rs:695-699 | the visible bytes of an address are the binary form of its values, and reading them gives the values |
| `MultiAddrs.SplitThenConcat` | implementations/rust/ockam/ockam_multiaddr/src/lib.rs:567-590 | splitting anywhere and concatenating restores values and bytes |
| `MultiAddrs.CheckBytes` | implementations/rust/ockam/ockam_multiaddr/src/lib.rs:343-354 | finds the first error of the input, if there is one |
| `MultiAddrs.TryFromBytes` | implementations/rust/ockam/ockam_multiaddr/src/lib.rs:343-361 | accepts exactly the bytes of lists of valid values, and the address holds that list |
| `AddressDeque.Do` | implementations/rust/ockam/ockam_multiaddr/src/lib.rs:386-514 | each operation takes an address that stands for a list to one that stands for the list after the same operation, and returns what the list hands out |
| `AddressDeque.DoAll` | implementations/rust/ockam/ockam_multiaddr/src/lib.rs:386-514 | over every sequence of pushes, pops, drops and clones, with front pushes while nothing was removed there, the address stands for the list, and its bytes are the encoding of the list |
| `TextForm.DefaultIsConsistent` | implementations/rust/ockam/ockam_multiaddr/src/registry.rs:25-55 | prefixes and codes of the default registry belong together one to one, and prefixes hold no slash |
| `TextForm.ReadShown` | implementations/rust/ockam/ockam_multiaddr/src/proto.rs:35-50 | a shown value is read back; its text holds a slash only where the value is a text that does |
| `WireMeaning.DecimalDigits` | implementations/rust/ockam/ockam_multiaddr/src/proto.rs:143-146 | a port is shown by its decimal digits, highest first |
| `WireMeaning.PortShownOut` | implementations/rust/ockam/ockam_multiaddr/src/proto.rs:143-146 | port 8080 is shown as "/tcp/8080" |
| `WireMeaning.WorkerShownOut` | implementations/rust/ockam/ockam_multiaddr/src/proto.rs:188-191 | the worker "a" is shown as "/worker/a" |
| `WireMeaning.ShownInOrder` | implementations/rust/ockam/ockam_multiaddr/src/lib.rs:648-658 | values are shown one behind the other |
| `WireMeaning.PortValues` | implementations/rust/ockam/ockam_multiaddr/src/proto.rs:133-135 | the text of a port is stored high byte first; any other text is reported |
| `WireMeaning.PortTexts` | implementations/rust/ockam/ockam_multiaddr/src/proto.rs:133-135 | decimal digits, after a plus sign if one likes |
| `WireMeaning.NoPorts` | implementations/rust/ockam/ockam_multiaddr/src/proto.rs:133-135 | every number up to 65535 is a port and none beyond; no other sign and no empty text is |
| `WireMeaning.LeadingSlashIsOptional` | implementations/rust/ockam/ockam_multiaddr/src/iter.rs:113-120 | a slash in front may be left out |
| `WireMeaning.PrefixAlone` | implementations/rust/ockam/ockam_multiaddr/src/iter.rs:113-120 | a text prefix with nothing behind it has the empty value |
| `TextForm.ParseSection` | implementations/rust/ockam/ockam_multiaddr/src/iter.rs:109-132 | one shown value in front of others is read back, or cut short at its slash |
| `TextForm.TextRoundTrip` | implementations/rust/ockam/ockam_multiaddr/src/lib.rs:648-660 | parsing the shown form gives the list back if and only if no text value holds a slash; empty values are no exception |
| `TextForm.SlashIsRefused` | implementations/rust/ockam/ockam_multiaddr/src/iter.rs:109-132 | a text on which it fails: the worker "a/b" is shown but refused when parsed, for the unknown prefix "b" |
| `TextForm.InverseExists` | implementations/rust/ockam/ockam_multiaddr/src/proto.rs:35-50 | there are texts of addresses of which reading undoes showing, as the round trips ask |
| `TextForm.ShownIsText` | implementations/rust/ockam/ockam_multiaddr/src/lib.rs:648-660 | the shown form is UTF-8 |
| `StrIters.StrIter.Next` | implementations/rust/ockam/ockam_multiaddr/src/iter.rs:109-132 | yields the next prefix and value; every successful step strictly shortens the input and a failing one leaves it |
| `StrIters.ParsedIsValid` | implementations/rust/ockam/ockam_multiaddr/src/codec.rs:107-158 | whatever text is accepted, its values are valid and registered |
| `StrIters.ParsedIsSeparable` | implementations/rust/ockam/ockam_multiaddr/src/codec.rs:10-21 | no value of an accepted text holds a slash |
| `StrIters.ParsedTextSurvives` | implementations/rust/ockam/ockam_multiaddr/src/lib.rs:322-337 | whatever text is accepted, showing its values and parsing again gives them back |
| `StrIters.Transcode` | implementations/rust/ockam/ockam_multiaddr/src/lib.rs:322-331 | the bytes of the parsed values, or the first error |
| `StrIters.TryFromStr` | implementations/rust/ockam/ockam_multiaddr/src/lib.rs:322-337 | the address holds exactly the values of the text, or the first error |
| `StrIters.Display` | implementations/rust/ockam/ockam_multiaddr/src/lib.rs:648-660 | the loop over the values writes the shown form |
| `StrIters.DisplayThenParse` | implementations/rust/ockam/ockam_multiaddr/src/lib.rs:648-660 | displaying and parsing gives the same bytes if and only if no text value holds a slash |
| `Scheduler.StepKeepsWellFormed` | implementations/rust/ockam/ockam_executor/src/executor.rs:135-147 | ids are handed out once, so a spawn never meets an existing task, and the main future is never queued |
| `Scheduler.StepWaits` | implementations/rust/ockam/ockam_executor/src/executor.rs:74-90 | whatever happens, a waiting task keeps waiting and moves up, the yield branch included |
| `Scheduler.BoundedWaiting` | implementations/rust/ockam/ockam_executor/src/executor.rs:63-92 | a task at position `k` when a round starts is visited within `k + 1` rounds, whatever tasks wake or spawn |
| `Scheduler.BoundedRound` | implementations/rust/ockam/ockam_executor/src/executor.rs:71-90 | a round that starts with `n` queued ids makes at most `n + 1` visits |
| `Scheduler.RoundBegins` | implementations/rust/ockam/ockam_executor/src/executor.rs:71-72 | a round begins with one visit more than there are queued ids |
| `Scheduler.RoundIsUsedUp` | implementations/rust/ockam/ockam_executor/src/executor.rs:74-90 | and makes exactly so many, unless a pop finds the queue empty or meets the task that has just run |
| `Scheduler.SpawnedIsQueued` | implementations/rust/ockam/ockam_executor/src/executor.rs:136-147 | a spawned task is stored and queued last, under an id never used before |
| `Scheduler.WokenIsQueued` | implementations/rust/ockam/ockam_executor/src/executor.rs:282-284 | a woken id is queued last |
| `Scheduler.QueuedStays` | implementations/rust/ockam/ockam_executor/src/executor.rs:74-83 | a queued id stays queued until it is visited |
| `Scheduler.LivesUntilReady` | implementations/rust/ockam/ockam_executor/src/executor.rs:123-132 | a task lives until a poll of it is ready, and no longer |
| `Scheduler.QueuedIsPolled` | implementations/rust/ockam/ockam_executor/src/executor.rs:97-133 | a live task at position `k` when a round starts is polled within `k + 1` rounds |
| `Scheduler.SpawnedIsPolled` | implementations/rust/ockam/ockam_executor/src/executor.rs:136-147 | every spawned task is polled, within two rounds more than there are ids in front of it |
| `Scheduler.FinishedIsNeverPolled` | implementations/rust/ockam/ockam_executor/src/executor.rs:124-129 | once a task is ready, no state of any run from there holds it or polls it, even if its id is still queued |
| `Executors.Executor.constructor` | implementations/rust/ockam/ockam_executor/src/executor.rs:44-53 | a new executor has no task and an empty queue |
| `Executors.Executor.SpawnNew` | implementations/rust/ockam/ockam_executor/src/executor.rs:136-147 | a new task is stored and queued under a new id |
| `Executors.Executor.Perform` | implementations/rust/ockam/ockam_executor/src/executor.rs:282-295 | the wakes and spawns of one poll, in order |
| `Executors.Executor.PollTask` | implementations/rust/ockam/ockam_executor/src/executor.rs:97-133 | an unknown id changes nothing; a known one does what its poll does, and is removed if and only if it is ready |
| `Executors.Executor.PollNext` | implementations/rust/ockam/ockam_executor/src/executor.rs:74-83 | the id at the front of the queue is taken off and its task polled |
| `Executors.RoundVisitsInOrder` | implementations/rust/ockam/ockam_executor/src/executor.rs:74-90 | a visit is a pop, the events of the next poll and its end; the rest of the round belongs to the later polls |
| `Executors.RoundLeads` | implementations/rust/ockam/ockam_executor/src/executor.rs:71-90 | what a round does, as a function of what the polls do, is a legal run of the state machine back to the main future, with one visit for each call of `poll_task` |
| `Executors.LoopLeads` | implementations/rust/ockam/ockam_executor/src/executor.rs:55-94 | so is the whole loop: it begins a round after each pending poll of the main future and ends exactly when one is ready |
| `Executors.Executor.InnerLoop` | implementations/rust/ockam/ockam_executor/src/executor.rs:71-90 | the inner loop, with its budget and yield rule, pops and polls exactly as that function says: each live task popped does what its poll does |
| `Executors.Executor.Round` | implementations/rust/ockam/ockam_executor/src/executor.rs:71-90 | the same from the pending poll of the main future, and it is a legal run with one visit for each call of `poll_task` |
| `Executors.Executor.BlockOn` | implementations/rust/ockam/ockam_executor/src/executor.rs:55-94 | the events, the final state and the number of polls are those of the whole loop for the given polls of the main future and of tasks; it is a legal run that is ready exactly when a poll of the main future is |
| `Channels.ChannelConserves` | implementations/rust/ockam/ockam_executor/src/channel.rs:74-180 | sending, receiving, cloning and dropping keep it so that values received followed by values queued are the values that entered the queue, in order, at most 16 are queued, and a channel without senders is closed |
| `Channels.Inner.constructor` | implementations/rust/ockam/ockam_executor/src/channel.rs:25-35 | a new channel is empty, open and has one sender |
| `Channels.Inner.Send` | implementations/rust/ockam/ockam_executor/src/channel.rs:110-133 | a send with room queues the value; one without loses it and closes the channel; both wake the registered receiver |
| `Channels.Inner.Recv` | implementations/rust/ockam/ockam_executor/src/channel.rs:164-179 | takes the oldest value and wakes a sender, or registers the receiver and reports closed or pending |
| `Channels.ReceiveReturnsTheOldest` | implementations/rust/ockam/ockam_executor/src/channel.rs:165-177 | what a receive returns is the value it takes, which is the oldest; with none, the end of a closed channel and waiting for an open one |
| `Channels.SendEffects` | implementations/rust/ockam/ockam_executor/src/channel.rs:114-128 | a send with room queues its value last; one without leaves the queue, closes the channel and registers the sender |
| `Channels.Inner.Drop` | implementations/rust/ockam/ockam_executor/src/channel.rs:81-94 | the last drop closes the channel and wakes the receiver |
| `System.ActsAreSafe` | implementations/rust/ockam/ockam_executor/src/channel.rs:110-180 | every step of the executor and of any task keeps the invariant that no wakeup is lost |
| `System.RunsAreSafe` | implementations/rust/ockam/ockam_executor/src/executor.rs:55-133 | and so does every run |
| `System.NoLostWakeups` | implementations/rust/ockam/ockam_executor/src/channel.rs:164-179 | in every reachable state a receiver parked in a task is registered with an empty, open channel or its task is queued, and no channel has lost or reordered a value it took in |
| `System.LosesOnlyByOverflow` | implementations/rust/ockam/ockam_executor/src/channel.rs:110-133 | after any run, the values handed to a channel are those received followed by those queued if and only if no send of the run met a full queue |
| `System.ClosesExactly` | implementations/rust/ockam/ockam_executor/src/channel.rs:81-128 | after any run, a channel is closed if and only if all its senders were dropped or a send of the run met a full queue |
| `System.ReceivesReturnWhatWasSent` | implementations/rust/ockam/ockam_executor/src/channel.rs:110-180 | after any run, the values that the receives on a channel returned, in order, followed by its queue, are the values that entered it, and all that were sent if none met a full queue |
| `System.RunOffers` | implementations/rust/ockam/ockam_executor/src/channel.rs:61-67 | the values handed to a channel are those of the sends of the run, in order |
| `System.SendersAreHandles` | implementations/rust/ockam/ockam_executor/src/channel.rs:74-94 | its senders are one, and those cloned, less those dropped |
| `System.ReceiveWakesSender` | implementations/rust/ockam/ockam_executor/src/channel.rs:167 | a receive that takes a value queues the task whose waker a send has registered |
| `System.SixteenSendsFit` | implementations/rust/ockam/ockam_executor/src/channel.rs:13 | a new channel holds sixteen values |
| `System.SeventeenSendsLose` | implementations/rust/ockam/ockam_executor/src/channel.rs:119-128 | a run on which a value is lost: 17 sends on a new channel |
| `System.WaitingIsBounded` | implementations/rust/ockam/ockam_executor/src/executor.rs:63-92 | a queued task is visited within as many rounds as there are ids in front of it, whatever the channels do |
| `System.ParkedReceiversGoOn` | implementations/rust/ockam/ockam_executor/src/channel.rs:164-179 | a receiver parked on a channel that holds a value or is closed is polled again within as many rounds as there are queued ids |
| `Pipes.Monotonic.From` | implementations/rust/ockam/ockam/src/monotonic.rs:17-19 | starts where it is told |
| `Pipes.Monotonic.Next` | implementations/rust/ockam/ockam/src/monotonic.rs:21-23 | returns the counter and increments it, wrapping at 64 bits |
| `Pipes.PipeSender.constructor` | implementations/rust/ockam/ockam/src/pipe/sender.rs:65-131 | counts from 1, with an empty buffer and the given peer, listener or nothing |
| `Pipes.PipeSender.HandleInternal` | implementations/rust/ockam/ockam/src/pipe/sender.rs:134-172 | the first initialisation sets the peer and flushes the buffer in order; nothing else changes a sender |
| `Pipes.PipeSender.HandleExternal` | implementations/rust/ockam/ockam/src/pipe/sender.rs:175-209 | a message loses its first address, is numbered, and is emitted or buffered |
| `Pipes.PipeSender.SendPipeMsg` | implementations/rust/ockam/ockam/src/pipe/sender.rs:212-232 | a pipe message goes to the peer from the internal address |
| `Pipes.SenderInOrder` | implementations/rust/ockam/ockam/src/pipe/sender.rs:134-232 | under any interleaving, what was emitted followed by the buffer is what was accepted, in order and numbered from 1; nothing is emitted before a peer is set and the buffer is empty once it is |
| `Pipes.NumberedFromOne` | implementations/rust/ockam/ockam/src/pipe/sender.rs:73-74 | accepted messages are numbered 1, 2, 3 and so on |
| `Pipes.BuffersUntilInit` | implementations/rust/ockam/ockam/src/pipe/sender.rs:203-207 | without a peer, and with a listener just so, everything is buffered until the sender is initialised |
| `Pipes.FirstInitDecides` | implementations/rust/ockam/ockam/src/pipe/sender.rs:148-162 | the first initialisation decides the peer and lets everything go, in order and to that peer |
| `Pipes.WithPeerNeverBuffers` | implementations/rust/ockam/ockam/src/pipe/sender.rs:192-202 | a sender made with a peer emits everything at once |
| `Pipes.PeerIsKept` | implementations/rust/ockam/ockam/src/pipe/sender.rs:141-151 | a peer, once set, is never changed, and nothing emitted is taken back |
| `Pipes.PipeReceiver.HandleExternal` | implementations/rust/ockam/ockam/src/pipe/receiver.rs:60-91 | a pipe message is unpacked and forwarded as it is |
| `Pipes.PipeReceiver.HandleInternal` | implementations/rust/ockam/ockam/src/pipe/behavior/handshake.rs:16-32 | with the handshake hook, the first handshake has the sender it names initialised from the receiver, and no later one does |
| `ChannelEnds.ChannelWorker.InitStage1` | implementations/rust/ockam/ockam/src/channel/worker.rs:170-215 | makes an uninitialised sender and a receiver, and announces them to the listener from the internal address |
| `ChannelEnds.ChannelWorker.InitStage2` | implementations/rust/ockam/ockam/src/channel/worker.rs:224-264 | makes a sender pointed at the far receiver and has the far sender initialised from the local receiver |
| `ChannelEnds.ChannelWorker.HandleExternal` | implementations/rust/ockam/ockam/src/channel/worker.rs:271-298 | rewrites routes at the public and at the internal address, and nothing elsewhere |
| `ChannelEnds.WorkerRewrites` | implementations/rust/ockam/ockam/src/channel/worker.rs:274-293 | the public address is replaced by the sender and the far worker; the internal one is removed and the public one put in front of the return route; other addresses change nothing |
| `ChannelEnds.ListenLearns` | implementations/rust/ockam/ockam/src/channel/listener.rs:49-82 | the last address of the return route is the far worker, and each pipe is reached by the same way |
| `ChannelEnds.HandleCreation` | implementations/rust/ockam/ockam/src/channel/listener.rs:36-84 | an announcement is answered by a stage 2 worker that knows the announcing end; a return route that is empty is refused |
| `ChannelTheorem.Connecting` | implementations/rust/ockam/ockam/src/channel/worker.rs:170-215 | stage 1 and the transport of its announcement make the channel from which all runs start |
| `ChannelTheorem.AnsweringEvent` | implementations/rust/ockam/ockam/src/channel/listener.rs:36-84 | what the listener and stage 2 do with the announcement, and the transport of their command, are the answering event of a run |
| `ChannelTheorem.HandshakeLinks` | implementations/rust/ockam/ockam/src/channel/worker.rs:101-104 | from the moment the announcement is under way, with nothing at the far side yet, the books are right |
| `ChannelRun.QuietIsKept` | implementations/rust/ockam/ockam/src/channel/worker.rs:101-104 | until the far end answers, messages handed in get as far as the buffer of the sender and no further |
| `ChannelRun.AnsweredIs` | implementations/rust/ockam/ockam/src/channel/listener.rs:47-82 | when it answers, each end knows the internal address of the other, the answering sender points at the connecting receiver, and the command for the connecting sender is under way |
| `ChannelRun.EventKeeps` | implementations/rust/ockam/ockam/src/channel/worker.rs:266-298 | every event keeps it so that each message under way, buffered or delivered is one message of a user in its proper form, and every message handed in is accounted for exactly once |
| `ChannelTheorem.StartedIsKept` | implementations/rust/ockam/ockam/src/pipe/sender.rs:147-163 | the announcement is under way, or the answering sender is ready and the connecting one is ready or its command is under way |
| `ChannelTheorem.RunKeeps` | implementations/rust/ockam/ockam/src/channel/worker.rs:266-298 | both hold in every state of every run |
| `ChannelTheorem.ChannelDelivers` | implementations/rust/ockam/ockam/src/channel/worker.rs:266-298 | in every run, in any order of travel, each message that leaves is one handed in at the other end, with its onward route and with the public address of the end it leaves in front of its return route; none leaves twice; once nothing is under way all have left |
| `ChannelTheorem.HasArrived` | implementations/rust/ockam/ockam/src/channel/worker.rs:266-298 | once nothing is under way, every message handed in has left the channel in its proper form |
| `ChannelTheorem.RepliesComeBack` | implementations/rust/ockam/ockam/src/channel/worker.rs:284-291 | a reply along the return route of a delivered message enters at the far end, and once nothing is under way it has left at the near end for the original return route, with the near public address in front of its own |
| `ChannelProgress.EventProgress` | implementations/rust/ockam/ockam/src/channel/worker.rs:266-298 | a message handed in has four moves ahead, and every move, the answer included, takes exactly one off what is ahead, through buffering and flushing |
| `ChannelProgress.EveryMoveCounts` | implementations/rust/ockam/ockam/src/pipe/sender.rs:134-209 | no run makes more than four moves for each message handed in, one for the answer and one for the command it sends back, and everything has been delivered if and only if it has made that many |
| `ChannelOrder.EventKeepsLine` | implementations/rust/ockam/ockam/src/pipe/sender.rs:147-209 | every event, if a move takes the oldest message of its side, keeps the line of each side: left, at the far worker, at the receiver, buffered, at the sender, at the near worker, in the order of entry |
| `ChannelOrder.KeepsOrder` | implementations/rust/ockam/ockam/src/channel/worker.rs:266-298 | in every run whose moves take the oldest message of their side, what has left at one end is, in order, a first part of what entered at the other, and all of it once nothing is under way |

## Left out

- The lexer itself, number and string escaping, and the text of parse errors: they are kinds, with the
  expressions they name.
- Float rounding and negative zero: finite floats are real numbers.
- The varint library: numbers are read by their specification, to the last byte of the number before range and minimality
  are checked. What the library does with input outside the specification is not modelled; continuation bytes without
  an end, for one, are insufficient input here where a decoder of fixed width reports overflow.
- Standard-library parsing and printing of IP addresses.
- Codecs other than the standard one; the small-vector representation of the buffer; `to_socket_addr`,
  CBOR and serde forms of addresses.
- `push_back` and `push_front` of a typed protocol: they write the same bytes as their `_value` forms.
- AddressDeque.DoAll: adds at the front only while nothing was removed there; the remaining cases are those of
  `MultiAddrs.MultiAddr.PushFrontValue`.
- The policy and attribute storages, environment merges and deletions, and the access control that looks policies up
  by resource: plain maps.
- Interleavings inside a poll, memory orderings, the waker cache, overflow of task ids, sleeping, join handles,
  timeouts and the unimplemented `closed`.
- The panic of a send that overflowed and is polled again: the source has taken its value by then. Runs of `System` go
  on past that point.
- Executors.Executor.BlockOn: is stated for a finite number of polls of the main future, because the source may
  loop for ever.
- Hooks of pipes other than the handshake hook: ordering, confirmation and resending.
- ChannelTheorem.ChannelDelivers: messages that have no onward address behind the channel are not considered; the
  far worker has nowhere to forward them to.
- Failing sends and stopped workers: every message under way can be delivered.
- Secure channels, vaults, transports, nodes, relays, flow control, the command line and the applications.
