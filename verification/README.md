# verify-run: a model and its proofs

`verify-run` is a deterministic decision gate with a crash-aware local store and a family of signed
allocators. This project models the parts of it whose correctness is not visible in any one function, and
proves what they are for. Nothing was executed: everything below is a statement the Dafny verifier checks,
over every input, run or interleaving. `dafny verify dfyconfig.toml` checks the whole project.

## What is modelled

**The language kernel.**

- `Canon`, `Load`, `DepthScan`: the canonical writer with its explicit work stack, a strict reader of RFC 8259
  (sections 4 to 7) that refuses duplicate keys, and the text scanner that bounds nesting at 64. Canonical
  text reads back as the value it was written from, so it identifies that value; the scanner's count is the
  structural depth, whatever brackets and quotes the strings spell.
- `CanonicalForm`, `JsonText`: which text spells a value canonically, and which texts denote it at all, each
  described without the writer and without the reader. The writer writes exactly the one, with its first failure,
  and the reader takes exactly the other.
- `Syntax`, `Parser`, `Printer`, `RoundTrip`, `Soundness`, `Expressions`, `ExpressionDepth`: the expression
  language. The scannerless parser is a class with a position and a nesting counter, proved against recursive
  parsing functions; every tree of the grammar parses back from its minimally parenthesised text, and the
  parser's range is exactly the trees that can be written within the bound.
- `Tokens`, `TokenParser`, `Grammar`: the language itself, as `spec/expression-language.md` declares it: how tokens
  are written, the refusals token by token, and phrases with parentheses wherever they may stand. The parser
  accepts a text as a tree exactly when the text is written, with white space anywhere, as a phrase of that tree.
- `TreeReader`: the reader of a stored tree by the names of its members, as the evaluator uses them; it takes back
  the tree that was parsed.
- `YamlEvents`, `YamlShapes`, `YamlMeaning`: the stack machine over YAML parser events, against building the value by
  recursion over the node tree that the events serialise; which of the bodies it accepts are the emission of a node;
  and what a document stands for or is refused for, said of its nodes alone.
- `Glob`, `Patterns`, `Decimals`, `Evaluate`: the last-star glob matcher against trying every split at every star, and
  what patterns say, classes included; digit comparison against the order of the rationals; and the three-valued
  evaluator with its causes and the walk over the rules.
- `Meaning`: what a path leads to, when a comparison, a membership or any other leaf holds and what it leaves in
  doubt, and what the rules decide, said without the evaluator. It gives every tree exactly that meaning.

**Time.** `Calendar` and `Instants`: civil date to day number and back, the date-time grammar (a subset of
RFC 3339 section 5.6) with its zones and fractions, adding seconds to a text, and the issuer's and the verifier's view
of an expiry.

**Protocols on a filesystem.** `Consumption`, `RecordCommit`, `IndexCache`, `Adoption`: state machines whose
steps are single filesystem effects (exclusive create and mkdir, a partial write, link, rename, unlink), taken
by any number of callers in any order, each able to fail or die before any step. `StoredTexts` says which files
the store's readers take back. `Capture` is the bounded read loop of a launched command.

**Allocators.** `LedgerRecords`, `Amounts`, `LedgerLayout`, `ChildLedger`, `LedgerRuns` and `LedgerLimits`: the
child-budget ledger with the records it writes, the amounts and tables it reads, how deep and how long its
snapshots are, its report verifier, every run of the two, and the ledgers that are created and cannot be used.
`LedgerLaws` says condition by condition which snapshots verify and when each change is made. `CapacityPools`,
`PoolReading`, `PoolRuns` and `PoolObjects`: the common capacity pool and the managed, service, adoption and review
epochs that take over its state file one after another. `PoolLaws` and `PoolOrder` say what its operations do and which
heads are accepted in terms of the named amounts that are asked for, and that what is settled stays within what was
configured; `PoolBytes` how a publication lengthens the state file. `ReceiptSize`: the receipt that records its own
size.

`Wrappers`, `Text`, `Values` and `Sizes` hold what the others share. A text is a sequence of code points,
surrogates included, since the host can hold them and the code refuses them at definite places. `Sizes` gives
the exact length in bytes of canonical objects, and bounds for the rest.

Digests and signatures are ideal: a digest is the thing it is the digest of, a signature names its signer.
Exact fractions are `real`; `Amounts` says which texts are read as one.

## Where a natural claim fails

Each of these is proved both ways: one lemma exhibits the failure on definite inputs, another says exactly when
the code is right.

- The calendar renderer (`vfy/authorization.py:278-295`) corrects a negative era before a floor division, so it is
  a day late just below 0000-02-29 (`RenderedDayTooLate`). `RenderingIsInverseExactlyFrom` gives the exact domain and
  `AddSecondsAdds` what that means for texts. An expiry is issued if and only if four digits can write the year the
  renderer gives it, right from 0000-02-29 on and a day late below (`IssuedExactly`); a late one is refused by every
  verifier (`IssuedAndRefused`), and `IssuedIsAccepted` says when an issued authorization is accepted.
- The gate's equality (`vfy/gate.py:305-315`) falls back to the host's inside objects, which identifies `true` with
  `1` and `false` with `0` (`TrueEqualsOneInsideObject`). `EqualityIsExactUnless` characterises the values for which
  it is exact; comparing with a literal of the grammar always is.
- A ledger's publication does not read back what it writes (`vfy/child_ledger.py:229-240`), and creation does not
  even check its size (`vfy/child_ledger.py:197-211`). The task identity, of which only one member is checked, stands
  twice in every snapshot, three containers deep, and once in every event, six deep. `RunVerifies` says, over every
  run, exactly when the published snapshot verifies: the first one must fit in 4 MiB, and the identity nest at most
  61 deep before anything is recorded and 58 after. `LongIdentityStops` is a ledger whose first snapshot is too
  long, `DeeperIdentityUnreadable` one whose first snapshot is too deep, and `DeepIdentityStops` one that is
  created, verifies, publishes its first hold and is refused from then on, for an identity 59 to 61 deep.
- The common pool's publication (`vfy/common_capacity.py:95-100`) checks the length of what it writes and nothing
  else, and of what its callers give it (the selected observer, a request's identity and input, the children's
  trust, the records a dispatch brings) only a few members. Its validator's rules hold of the file all the same
  (`CommonStepValid`), but it can be read back only while the observer nests at most 62 deep, what a reservation is
  bound to at most 58, and of the records of a dispatch the producers at most 58 and the members of their bodies
  at most 57 (`CommonDepth`, and `RunReadable` over every run). `InputStopsPool` is a request with a flat identity
  whose input nests 59 deep where a digest should stand, `DispatchStopsPool` a reservation that is read back and whose
  dispatch is not, `ObserverStopsPool` a pool unreadable from its creation; none of them can ever be changed again.
- A caller that loses the race for a nonce is told what the entry says (`vfy/store.py:402-410`), but it reads no more
  than 1 MiB of it, and nothing bounds the record that was written there (`spec/authorization.schema.json:10-11`).
  `VerdictsAreExact` and `EntriesLoadExactly`: it learns whose record is there exactly when that is at most 1 MiB long,
  and is told otherwise that the entry cannot be read. `LongNonceUnreadable` is such a race; the nonce is spent only
  once all the same (`SpentOnce`).
- `put_record` (`vfy/store.py:182-228`) publishes before it reads back, and its readers take at most 1 MiB of a file.
  A record loads exactly when its authorization agrees with its receipt and each text is at most 1 MiB of
  canonical text nesting at most 64 deep (`LoadsExactly`, `CanonicalRecordLoads`). Any other is committed all the same
  and refused to every reader (`UninterruptedCommits`, `OutcomesAreExact`); `LongCandidateRefused` is one, in order but
  for a candidate of a mebibyte and two bytes, and `RepeatIsIdempotent` says how a repeat of each ends.
- The index writer's cleanup (`vfy/store.py:569-578`) assumes an exception means the rename did not happen. An
  interruption between the rename and its return lets it unlink a slot that is another writer's by then. `RunKeeps`
  holds for all runs without that one event. `LateRenameLosesSlot` says what it costs in any run of the others: the
  cleanup takes a slot from exactly the writer that holds the freed one when it comes, which must have created it
  in between, and from nobody else. `SlotCanBeLost` is such a run from an empty store, and `IndexCanBeTorn` goes on from
  there to an index that names a torn document.
- An adoption plan is prepared and reserved (`vfy/service_adoption.py:143-180`, `:296-308`) without checking that the
  candidate manifest is one the file reader takes back, that the replaced copy can be read within the read limit, or
  that the pool's state file has room for the intent and the receipt. `UninterruptedAttempt` gives the exact
  condition under which an attempt that nothing interrupts replaces every file, and the exact condition under which
  it then completes. `PaddedManifestSpends` is a plan whose attempt spends the reservation and changes nothing, then
  or ever (`LongManifestStops`); `ReadBackUnpaid` and `NoRoomToSettle` are attempts that replace every file and never
  complete (`ReplacedNeverCompletes`).
- An adoption's intent embeds four documents one container deeper than they were loaded
  (`vfy/service_adoption.py:358-363`) and is read back only by the observer, which trusts nobody unless told to.
  `ReconcileIsExact`: whatever it observes did complete; a completed adoption is observed exactly when the owner is
  trusted and each document nests at most 63 deep. `DeepSnapshotUnobserved` is an adoption that completes and settles
  and is never observed.
- `spec/expression-language.md:39-41` calls a properly paired `\u` escape valid. The code
  (`vfy/expr.py:432-436`) refuses any surrogate escape; the model follows the code, and
  `Soundness.SurrogatePairRefused` states the difference.
- A parsed expression can be too deep to be loaded again, for that reason alone (`ReloadRefusesOnlyDepth`). A tree
  nests at most five containers for each parenthesis or bracket and nine besides (`TreeDepth`), so an expression with
  these at most eleven deep always reloads (`ElevenReload`), and there is one with its parentheses twelve deep that
  does not (`TwelveRefused`).
- The YAML machine (`vfy/load.py:153-185`) does not compare the kind of an end event with the start it closes, nor
  look whether there is a root already. Of the bodies it accepts, those that emit a node are exactly the ones
  whose brackets match and that hold one root (`EmissionExactly`); `UnmatchedBodiesAccepted` has one of each other
  kind. No YAML parser emits them.

## Model

| member | source | states |
|---|---|---|
| Glob.Match | vfy/gate.py:388-423 | the iterative matcher decides the reference relation that tries every split at every star, within (length of text + 1) * (length of pattern + 1) loop steps |
| Glob.Single | vfy/gate.py:426-438 | one pattern element accepts one character, and where the pattern goes on |
| Glob.FindClassEnd | vfy/gate.py:441-451 | the closing bracket of a class, a leading `]` belonging to the body, or none |
| Glob.TestClass | vfy/gate.py:454-469 | a character is in a class exactly when some item of the body holds it, negation included |
| Patterns.PatternMeans | vfy/gate.py:388-469 | a pattern written as stars, question marks, characters and classes of characters and ranges, negated or not, matches exactly the texts with one stretch for each star and one fitting character for each other piece |
| Patterns.EveryPatternSpells | vfy/gate.py:426-469 | and every pattern is written so, an unclosed bracket standing for itself |
| Glob.EarlierStarAbsorbed | vfy/gate.py:396-423 | why keeping only the last star loses no match |
| Glob.LiteralMatchesItself | vfy/gate.py:388-438 | a pattern of ordinary characters matches itself and nothing else |
| Glob.StarsAroundAreSubstring | vfy/gate.py:388-423 | `*sub*` is substring search |
| Decimals.MatchDecimalExact | vfy/gate.py:318-347 | the operands taken for numbers are exactly the spellings of decimals |
| Decimals.ComparisonIsRationalOrder | vfy/gate.py:350-383 | comparing digits gives the sign of the exact rational difference, and nothing exactly when an operand is no number within 1024 digits |
| Decimals.ComparisonIsTotalPreorder | vfy/gate.py:370-383 | hence comparison is reflexive, antisymmetric and transitive |
| Evaluate.DescendPath | vfy/gate.py:269-284 | descending segment by segment, absence being a settled fact |
| Evaluate.EqualityIsExactUnless | vfy/gate.py:305-315 | equality is exact for exactly the values none of whose objects holds a boolean, a zero or a one |
| Evaluate.TrueEqualsOneInsideObject | vfy/gate.py:313-315 | an instance: an object holding `true` equals one holding 1 |
| Evaluate.LiteralEqualityExact | vfy/gate.py:204-226 | comparing with a literal of the grammar is exact |
| Evaluate.Context.NoteCause | vfy/gate.py:125-129 | afterwards the cause is there, every earlier one where it stood, nothing else, and nothing twice |
| Evaluate.Context.ResolveOperand | vfy/gate.py:252-266 | what an operand resolves to, and the cause noted when it is unsettled |
| Evaluate.Context.Combine | vfy/gate.py:194-201 | the state of several operands, all of them evaluated |
| Evaluate.Context.EvaluateNode | vfy/gate.py:170-191 | every parser-produced tree evaluates to the specified state and causes |
| Evaluate.UnsettledExactly | vfy/gate.py:170-201 | a node is unsettled exactly when some leaf is, and its causes are those of all its leaves |
| Meaning.DescendLeads | vfy/gate.py:269-284 | a path leads to what its segments name in turn, members of objects and places in arrays, or nowhere |
| Meaning.ResolveDenotes | vfy/gate.py:252-302 | an operand is its literal's value, or what its path leads to from the candidate, its identity or an item that is there and ok; the rest is absent or unavailable |
| Meaning.EqualityCompares | vfy/gate.py:305-315 | values are equal as what they are, but inside objects as the host compares them |
| Meaning.EvaluationMeans | vfy/gate.py:170-302 | every tree is evaluated to its meaning: unsettled exactly when it leaves something in doubt, otherwise true exactly when it holds, each operator, membership, glob, presence and age in its own words; the doubts noted from left to right, each once |
| Meaning.SettledIsClassical | vfy/gate.py:170-201 | a settled state is the truth of the tree |
| Meaning.RuleMeans | vfy/gate.py:159-167 | a rule is settled only when all it requires is there and ok, and otherwise says the first that is not |
| Meaning.WalkMeans | vfy/gate.py:132-156 | the first rule that is not settled and false decides, by its outcome or by a hold with its doubts, and past them all the default |
| Meaning.DecidedOnce | vfy/gate.py:132-156 | there is one such decision |
| Evaluate.EvaluationIsLocal | vfy/gate.py:252-302 | altering any evidence the tree does not name changes neither state nor causes |
| Evaluate.Walk | vfy/gate.py:132-156 | the walk over the rules decides what the specification decides, with its trace |
| Evaluate.AllowExactly | vfy/gate.py:132-167 | ALLOW if and only if some ALLOW rule is true and every rule before it false |
| Evaluate.HeldHasCauses | vfy/gate.py:132-167 | a held walk always says why |
| Evaluate.WalkIsLocal | vfy/gate.py:132-167 | the decision reads no evidence but what its rules name or require |
| Canon.StringText | vfy/canon.py:145-162 | the string written is the specified one, a surrogate refused |
| Canon.ArrayFrames | vfy/canon.py:165-172 | the frames pushed for an array render as its items |
| Canon.ObjectFrames | vfy/canon.py:175-190 | the frames pushed for an object render as its members, in code point order |
| Canon.Canonicalize | vfy/canon.py:70-108 | the explicit stack writes exactly the recursive rendering, with the failure that would meet first, and ends |
| CanonicalForm.WriterSpells | vfy/canon.py:70-190 | the writer gives a text if and only if it spells the value: no white space, the two-character escape where there is one and \u00 with lower-case digits for other control characters, members by increasing key, integers in range without leading zeros, no surrogate |
| CanonicalForm.FirstOffence | vfy/canon.py:70-190 | and refuses a value exactly for the first thing in it, in the order of the text, that has no spelling |
| CanonicalForm.SpellingIdentifies | vfy/canon.py:111-134 | a value has one spelling and a spelling one value |
| Load.ObjectFromPairs | vfy/load.py:293-300 | the object hook gives the mapping, or refuses at the first duplicate key |
| Load.CanonicalTextReadsBack | vfy/canon.py:70-108 | a strict reader returns from canonical text the value it was written from |
| Load.CanonicalTextIdentifies | vfy/canon.py:111-134 | two values with one canonical text are one value |
| DepthScan.RejectExcessDepth | vfy/load.py:263-290 | the scanner's loop is the specified scan |
| DepthScan.ScannerIsExact | vfy/load.py:263-290 | on every text that reads as one document it refuses if and only if the value nests deeper than 64 |
| DepthScan.LoadUndoesCanonicalize | vfy/load.py:76-108 | a written value loads back as itself exactly when it nests at most 64 deep |
| DepthScan.LoadedIsStable | vfy/load.py:76-108 | whatever loads has a canonical text that loads as the same value |
| JsonText.ReaderTakes | vfy/load.py:76-108 | the reader takes exactly the texts that denote a value: any white space, order of members and escapes, pairs of surrogate escapes as one character, no key twice, no fraction or exponent, integers in range |
| JsonText.OneMeaning | vfy/load.py:76-108 | and no text denotes two values |
| JsonText.LoadExactly | vfy/load.py:76-108 | what loads is exactly a text that denotes a value nesting at most 64 deep that has a canonical spelling |
| YamlEvents.ValueFromEvents | vfy/load.py:132-185 | the loop over events is the specified machine, on every event stream |
| YamlEvents.MachineIsRecursion | vfy/load.py:132-208 | the machine accepts what recursion over the node tree builds, with the same value and the same first failure |
| YamlEvents.EmissionLoadsBack | vfy/load.py:132-208 | a mapping's events give it back if and only if it nests at most 64 deep and has no merge key |
| YamlMeaning.DocumentMeans | vfy/load.py:132-250 | a document's events are taken as a value exactly when its root is a mapping that stands for it, within 64 containers: typed plain scalars only as written, other scalars as strings, keys distinct strings and no merge key, nothing aliased, anchored or tagged |
| YamlMeaning.DocumentRefused | vfy/load.py:132-250 | and is otherwise refused for the first thing wrong in it, in the order of the document |
| YamlShapes.AcceptedIsEmission | vfy/load.py:132-208 | an accepted body whose brackets match is the emission of one mapping without alias, anchor or tag, within the bound, its keys everywhere distinct strings and no merge key, and its value is what recursion builds |
| YamlShapes.EmissionExactly | vfy/load.py:153-185 | of the accepted bodies the emissions of nodes are exactly those whose brackets match around one root |
| YamlShapes.UnmatchedBodiesAccepted | vfy/load.py:177-185 | a mapping ended as a sequence is accepted, and a second root replaces the first; no node emits either |
| Parser.Cursor.Parse | vfy/expr.py:199-206 | the whole source parses to the specified tree or failure, the nesting counter back at zero |
| Parser.Cursor.OrExpression | vfy/expr.py:208-214 | operands of `or`, one standing for itself |
| Parser.Cursor.AndExpression | vfy/expr.py:216-222 | operands of `and`, one standing for itself |
| Parser.Cursor.NotExpression | vfy/expr.py:224-242 | `not` over a parenthesis, with its nesting bound, or a comparison |
| Parser.Cursor.Comparison | vfy/expr.py:244-278 | a comparison, chained ones refused |
| Parser.Cursor.MembershipHere | vfy/expr.py:280-287 | membership in a list literal |
| Parser.Cursor.FunctionHere | vfy/expr.py:289-334 | the three calls and their argument checks |
| Parser.Cursor.OperandHere | vfy/expr.py:349-365 | a literal or a path |
| Parser.Cursor.IntegerLiteral | vfy/expr.py:367-379 | an integer within the safe range |
| Parser.Cursor.PathHere | vfy/expr.py:381-401 | a root and its segments |
| Parser.Cursor.StringLiteral | vfy/expr.py:403-443 | a string with its escapes, surrogates refused |
| Parser.Cursor.ListLiteral | vfy/expr.py:445-472 | a list with its nesting bound |
| Tokens.LexedExactly | vfy/expr.py:158-197 | a text is written with tokens, and white space between them, in at most one way, which the lexer finds: longest words, integers and operators, strings with each escape and either case of hexadecimal digit |
| Tokens.FaultFound | vfy/expr.py:403-443 | a string that is refused is well written up to the fault, which is reported for what it is and where |
| TokenParser.ParseIsByTokens | vfy/expr.py:199-520 | the parser on characters does what is done to the tokens: the same tree, or the same kind of refusal at the same place |
| Grammar.LanguageExactly | spec/expression-language.md:43-64 | a source is accepted as a tree if and only if it is written as a phrase of the grammar with that tree, redundant parentheses included, within 64 open brackets and parentheses |
| Grammar.OneTree | spec/expression-language.md:66-83 | the grammar is unambiguous |
| RoundTrip.PrintedTreeParses | vfy/expr.py:199-487 | every tree of the grammar within 64 open brackets and parentheses is the parse of its printed text |
| Soundness.ParsedTreeIsGrammatical | vfy/expr.py:199-520 | what parses is a tree of the grammar, passes the static checks and fits the bound |
| Soundness.ParsedTreesExactly | vfy/expr.py:199-520 | a tree is the parse of some source if and only if it is grammatical and fits |
| Soundness.ReprintingParsesTheSame | vfy/expr.py:199-487 | white space and redundant parentheses leave no trace |
| Soundness.NotNotRefused | vfy/expr.py:224-242 | `not not` is refused whatever follows |
| Soundness.SurrogatePairRefused | vfy/expr.py:426-439 | an instance: a surrogate escape is refused even as half of a pair |
| Expressions.CollectEvidenceIds | vfy/expr.py:102-128 | the collector appends each id once, in order of first occurrence |
| Expressions.CollectExact | vfy/expr.py:102-128 | the ids collected are exactly those the tree names |
| Expressions.CollectInOrder | vfy/expr.py:102-128 | in the order in which the expression, read from left to right, first mentions them |
| Expressions.ValidateExpression | vfy/expr.py:88-99 | the first undeclared id, if any |
| Expressions.TreeValueInjective | vfy/expr.py:46-60 | distinct trees have distinct values, so the canonical text determines the tree |
| TreeReader.TreeReadsBack | vfy/gate.py:170-266 | reading a tree's value by the names the evaluator reads (type, operator, left, right, operand, list and so on) gives the tree |
| TreeReader.StoredTreeIsParsed | vfy/expr.py:46-85 | so what an accepted expression stores is read back as the tree that was parsed |
| Expressions.AcceptedExpressionReloads | vfy/expr.py:63-85 | an accepted expression's text reloads as its tree's value and no other's |
| Expressions.ReloadRefusesOnlyDepth | vfy/expr.py:63-85 | reloading refuses a parsed expression only for depth, and exactly then |
| ExpressionDepth.TreeDepth | vfy/expr.py:46-60 | a tree's value nests at most five containers for each parenthesis or bracket around anything in it, and nine besides |
| ExpressionDepth.ElevenReload | vfy/expr.py:63-85 | an expression with these at most eleven deep is never refused on reload |
| ExpressionDepth.TwelveRefused | vfy/expr.py:63-85 | towers twelve and more parentheses deep parse and are refused on reload as too deep |
| Calendar.EachDayIsOneMore | vfy/rulebook.py:149-156 | every civil day is one more than the day before |
| Calendar.EpochIsDayZero | vfy/rulebook.py:149-156 | 1970-01-01 is day 0 |
| Calendar.DaysStrictlyIncrease | vfy/rulebook.py:149-156 | the day number orders dates as the calendar does |
| Calendar.DaysOfRenderedDate | vfy/authorization.py:278-295 | from 0000-02-29 on, rendering inverts the day number |
| Calendar.RenderedDateOfDays | vfy/authorization.py:278-295 | and a date is rendered back from its number |
| Calendar.RenderedDayTooLate | vfy/authorization.py:281-284 | 0000-02-28 is rendered as the next day |
| Calendar.RenderingIsInverseExactlyFrom | vfy/authorization.py:278-295 | exactly which days are rendered readably and right |
| Instants.LocalTextReads | vfy/rulebook.py:124-146 | a date-time with a zone and a fraction names its instant: hh*3600 + mm*60 seconds earlier for a zone ahead, as much later for one behind, and k digits of fraction by 10 to the power 9 - k nanoseconds |
| Instants.DateTimesExactly | vfy/schema.py:325-340 | the date-times are exactly such texts |
| Instants.IntervalExactly | vfy/authorization.py:225-254 | the verifier's answer for any three of them, and a fourth, each way it can come out |
| Instants.IssueRefuses | vfy/authorization.py:128-140 | the issuer refuses exactly the issues before the freeze and those whose expiry is no date-time |
| Instants.RenderedMomentReads | vfy/authorization.py:288-295 | a rendered moment whose year fits four digits reads back |
| Instants.RenderedYearUnreadable | vfy/schema.py:325-340 | any other year is rendered as no date-time at all |
| Instants.AddSecondsAdds | vfy/authorization.py:278-295 | adding seconds to a text gives the text of the sum exactly when the sum falls in 0000-02-29 .. 9999-12-31 |
| Instants.IssuedExactly | vfy/authorization.py:128-189 | an expiry is issued if and only if four digits can write its rendered year, and the text issued names the derived instant from 0000-02-29 on and a day after it below |
| Instants.IssuedIsAccepted | vfy/authorization.py:134-140 | what is issued with a time to live of at least one second is accepted exactly when its expiry can be written right and the verification time lies within |
| Instants.IssuedAndRefused | vfy/authorization.py:278-295 | an instance: an authorization issued on 0000-02-28 that every verifier refuses |
| Instants.AcceptedExpiryIsDerived | vfy/authorization.py:230-249 | no expiry but the derived one passes the verifier |
| Amounts.AmountExactly | vfy/child_ledger.py:51-55 | an amount is accepted exactly when it is the spelling, in at most 64 characters, of a fraction in lowest terms, and is read as that fraction |
| Amounts.OneSpelling | vfy/child_ledger.py:51-55 | a number has one accepted spelling |
| Amounts.Table | vfy/child_ledger.py:57-66 | a resource table as written becomes a map exactly when every amount is UNKNOWN or accepted, the axes known, their units right and none repeated |
| ChildLedger.Usage | vfy/child_ledger.py:169-183 | exposure on every budgeted axis, child by child |
| ChildLedger.CheckChildren | vfy/child_ledger.py:341-374 | the pass over the children decides the declared conditions, counts the events and names the unresolved |
| ChildLedger.UnresolvedAre | vfy/child_ledger.py:376-381 | the children reported as unknown are, in their order, those not settled with the service known to have been performed or not and every axis measured |
| ChildLedger.VerifyReport | vfy/child_ledger.py:326-381 | the verifier accepts exactly the verified snapshots and reports their exposure |
| ChildLedger.Create | vfy/child_ledger.py:197-211 | creation succeeds exactly on an acceptable start, basis, budget and trust |
| ChildLedger.Ledger.Publish | vfy/child_ledger.py:229-240 | the next snapshot, one revision on, unless too big to write |
| ChildLedger.Ledger.ReserveChild | vfy/child_ledger.py:254-270 | reserving publishes what the step function gives or changes nothing |
| ChildLedger.Ledger.RecordDispatchOf | vfy/child_ledger.py:276-281 | likewise for recording a dispatch |
| ChildLedger.Ledger.CompleteService | vfy/child_ledger.py:283-301 | likewise for a completion, whose observation file must say the same |
| ChildLedger.Ledger.SettleService | vfy/child_ledger.py:303-315 | likewise for a settlement of exactly that completion |
| LedgerLaws.SoundIs | vfy/child_ledger.py:326-376 | what a report asks of a snapshot is exactly that it is in order: every child unused or come stage by stage to where it is, each event of its own attempt, naming the hold and completion it follows, tables on exactly the budget's axes, the revision counting the events |
| LedgerLaws.AllCommitIs | vfy/child_ledger.py:169-183 | exposure is the settled amount of each child's row where there is one, else the hold or what was measured, whichever is more |
| LedgerLaws.ReserveMeans | vfy/child_ledger.py:254-270 | a hold is made exactly for an expected child that has none, for a new attempt, with known amounts on exactly the budget's axes that leave every axis within its limit, and what is written |
| LedgerLaws.UnexpectedRefused | vfy/child_ledger.py:254-270 | nothing is held for any other |
| LedgerLaws.DispatchMeans | vfy/child_ledger.py:276-281 | a dispatch is recorded once for a hold |
| LedgerLaws.CompleteMeans | vfy/child_ledger.py:283-301 | a completion once for a dispatch, on the hold's axes, where the observation file says the same |
| LedgerLaws.SettleMeans | vfy/child_ledger.py:303-315 | a settlement once, of exactly the completion named, row by row |
| LedgerLaws.UnheldRefused | vfy/child_ledger.py:271-275 | and none of these for a hold that nobody has |
| LedgerLayout.SnapshotDepth | vfy/child_ledger.py:206-252 | the record written nests within the loader's bound exactly when the identity nests at most 61 deep, and 58 once anything is recorded |
| LedgerRuns.StepIsSound | vfy/child_ledger.py:229-240 | what is published says everything the verifier asks of its fields, one revision on, and extends the last |
| LedgerRuns.SoundVerifies | vfy/child_ledger.py:326-376 | such a snapshot verifies exactly when it fits and the identity is shallow enough |
| LedgerRuns.StepVerifies | vfy/child_ledger.py:229-240 | a publication verifies if and only if the identity nests at most 58 deep |
| LedgerRuns.RunVerifies | vfy/child_ledger.py:326-376 | over every run, crashes included, exactly when the published snapshot verifies, and that a ledger is stuck where it does not |
| LedgerLimits.SnapshotAtLeast | vfy/child_ledger.py:206-211 | every snapshot takes at least twice the bytes of the identity |
| LedgerLimits.CreatedTooBig | vfy/child_ledger.py:205-211 | a ledger whose identity takes more than 2 MiB is created and refuses every change for good |
| LedgerLimits.SampleOk | vfy/child_ledger.py:129-143 | start and budget are accepted for every identity of at most 3 MiB that nests at most 63 deep |
| LedgerLimits.LongIdentityStops | vfy/child_ledger.py:205-211 | a flat identity with a text over 2 MiB: created, and never usable |
| LedgerLimits.DeepIdentityStops | vfy/child_ledger.py:229-252 | an identity 59 to 61 deep: created, verified, held once, and refused from then on |
| LedgerLimits.DeeperIdentityUnreadable | vfy/child_ledger.py:205-211 | an identity 62 or 63 deep: the first snapshot is small and already unreadable |
| LedgerRuns.ExposureChange | vfy/child_ledger.py:254-315 | reserve adds the request, dispatch nothing, complete the overrun; settle never increases and keeps the hold where unknown |
| LedgerRuns.ExposureBounded | vfy/child_ledger.py:169-183 | exposure never exceeds the limit plus the overruns of completed children |
| LedgerRuns.EventsNeverChange | vfy/child_ledger.py:229-315 | nothing a run records is altered or dropped later |
| LedgerRuns.NoChangeTwice | vfy/child_ledger.py:254-315 | a change that was made is refused if it comes again, whatever happens between |
| LedgerRuns.RevisionBounded | vfy/child_ledger.py:376 | at most four publications a child |
| CapacityPools.Holders | vfy/common_capacity.py:131-133 | the entries a ticket is for, all of them |
| PoolReading.CommonDepth | vfy/common_capacity.py:111-143 | the state file nests within the loader's bound exactly when the observer nests at most 62 deep, every binding at most 58, and of every dispatch the producers at most 58 and the members of the bodies at most 57 |
| PoolRuns.CommonStepValid | vfy/common_capacity.py:55-100 | the validator's rules hold of whatever the common pool publishes, the revision being the number of events; it can be read back exactly when what was just added is shallow enough, every member of it |
| PoolRuns.RunReadable | vfy/common_capacity.py:53-54 | over every run, exactly when the state file can be read back, in terms of all that callers gave, and that one that cannot is never changed again |
| PoolRuns.DispatchStopsPool | vfy/common_capacity.py:134-143 | an identity 58 deep is reserved for, and its dispatch makes the state file unreadable for good |
| PoolRuns.InputStopsPool | vfy/common_capacity.py:111-130 | a request with a flat identity and an input 59 deep makes the state file unreadable for good as it is reserved for |
| PoolRuns.ObserverStopsPool | vfy/common_capacity.py:39-48 | an observer 63 deep makes it unreadable from its creation |
| PoolRuns.SuccessionNeedsRoom | vfy/service_attempt.py:87-91 | each epoch at least doubles the state file, so the common head under all of them takes at most 4 MiB divided by two for each, of which there are at most four |
| PoolRuns.ProgressNeedsNoCheck | vfy/service_attempt.py:186-199 | after admission an epoch refuses nothing its entries allow but a head too long to write |
| PoolRuns.AdmitExactly | vfy/service_attempt.py:121-133 | admission succeeds if and only if the claims are new, every shared and own capacity has room and the head is not too long to write |
| PoolLaws.AdmitMeans | vfy/service_attempt.py:121-133 | and in named amounts: a new request within its bounds, no clash, room on each axis by name, a slot, and of retained output a service's output bytes, an adoption's journal bytes, a review's retained bytes |
| PoolLaws.SettledWithinCapacity | vfy/service_review.py:91-99 | over every run the bytes accepted in settlements of services, adoptions and reviews, and what the children keep, are together within the configured retained output |
| PoolLaws.ReserveMeans | vfy/common_capacity.py:101-130 | a reservation is made exactly for a child that has none, with the pool's trust and observer, while a slot and 262144 bytes are left |
| PoolLaws.BindMeans | vfy/common_capacity.py:134-143 | a dispatch is bound once, to exactly the child reserved for |
| PoolLaws.SettleMeans | vfy/common_capacity.py:144-163 | a settlement is made once, of that dispatch, for output measured as captured and within the hold; known, the child keeps what was captured, otherwise the hold |
| PoolLaws.SettleGivesBack | vfy/common_capacity.py:144-163 | so it gives back exactly what a known child left unused |
| PoolLaws.HeldOnce | vfy/common_capacity.py:115-123 | over every run no child is held for twice |
| PoolLaws.SuccessionsAre | vfy/service_review.py:39-60 | the successions of epochs there can be |
| PoolLaws.ConsumptionLeaves | vfy/service_attempt.py:243-263 | what an attempt to consume an admitted service comes to, for every way its evidence and its publication can go |
| PoolOrder.HeadsAre | vfy/service_attempt.py:135-184 | the heads the validators accept are exactly those in order: what each entry can have come to, no clash, sums by name within the epoch and the pool, the revision counting the writes, and a succession there can be |
| PoolRuns.AttachExactly | vfy/service_adoption.py:234-242 | the conditions of taking over, spelled out: the head in the state file, readable, that may be followed, with no overflow of the grant and a new head short enough; and what the epoch starts from |
| PoolRuns.CapsAreConfigured | vfy/managed_capacity.py:139-145 | capacities are the configured ones and at most one grant, whatever the succession |
| PoolRuns.ConservedAcrossSuccession | vfy/service_review.py:91-99 | everything charged in all epochs stays within the configuration and the one grant |
| PoolRuns.RevisionCountsEvents | vfy/service_attempt.py:145-183 | the revision is the number of events recorded since creation |
| PoolRuns.PredecessorRefused | vfy/service_attempt.py:82-92 | once a successor is attached every change through the predecessor is refused for good |
| PoolRuns.HistoriesKept | vfy/service_attempt.py:214-298 | what an entry reserves never changes, what is recorded stays, unknown stays unknown |
| PoolRuns.StageIsDerived | vfy/service_attempt.py:178-181 | the stored state is the one the other fields imply |
| PoolRuns.ConsumedAtMostOnce | vfy/service_attempt.py:243-263 | a consumption burns the live capability whether it works or fails, and the entry is never spent afterwards |
| PoolObjects.ValidateCommon | vfy/common_capacity.py:55-91 | the pass over the common entries decides validity |
| PoolObjects.ValidateService | vfy/service_attempt.py:135-184 | the pass over the service entries decides validity and counts events |
| PoolObjects.StateFile.Replace | vfy/common_capacity.py:95-100 | writing beside the state file and renaming over it, as far as the host lets it go |
| PoolObjects.CapacityOwner.Reserve | vfy/common_capacity.py:101-130 | a reservation takes one slot and the whole output hold, or changes nothing |
| PoolObjects.CapacityOwner.BindDispatch | vfy/common_capacity.py:134-143 | a dispatch is bound to exactly the child reserved for |
| PoolObjects.CapacityOwner.Settle | vfy/common_capacity.py:144-163 | settling keeps the bytes captured when all is known, else the hold |
| PoolObjects.EpochOwner.AdmitEntry | vfy/service_attempt.py:214-230 | admission publishes a valid head and gives the caller the live capability |
| PoolObjects.EpochOwner.Consume | vfy/service_attempt.py:243-263 | the capability goes first, then the entry, then the unknown mark on failure |
| PoolObjects.EpochOwner.Later | vfy/service_attempt.py:265-298 | marking and settling, exactly when they are allowed, record the outcome in that one entry one revision on; the others, the claims and the live capabilities stay |
| Consumption.NextKeeps | vfy/store.py:382-440 | every step touches only the caller's own slot and file and leaves every published entry as it was |
| Consumption.SpentOnce | vfy/store.py:382-417 | of all callers for one nonce at most one spends it, and the entry holds its record |
| Consumption.OldEntryStands | vfy/store.py:394-417 | a nonce with an entry is never spent again and the entry never changes |
| Consumption.EntriesAreRecords | vfy/store.py:388-400 | a published entry is the one found at the start or some caller's whole record, never a part of one |
| Consumption.VerdictsAreExact | vfy/store.py:402-410 | a loser is told its own record or another's is there exactly as it is, if and only if the entry loads, and otherwise that it cannot be read |
| Consumption.EntriesLoadExactly | vfy/store.py:839-851 | an entry loads if and only if it has at most 1 MiB |
| Consumption.RaceIsDecided | vfy/store.py:382-417 | of two callers that looked before either spent, one launches and the other is told what the first one's record tells it |
| Consumption.LongNonceUnreadable | vfy/store.py:382-410 | such a race whose loser cannot read the entry, for a nonce of a mebibyte |
| Consumption.LaunchFollowsConsumption | vfy/runner.py:157-174 | a launch follows the caller's own consumption |
| Consumption.CallEnds | vfy/store.py:419-440 | each of a caller's own steps brings it nearer its end, whatever the others do |
| Consumption.UninterruptedSpends | vfy/store.py:382-440 | a call left to run on an unspent nonce with a slot free does spend it and launch |
| RecordCommit.NextKeeps | vfy/store.py:182-228 | every step of every writer keeps the commit invariant, and what is stored stays |
| RecordCommit.CommitIsWhole | vfy/store.py:182-228 | a visible receipt has exactly its record's bodies beside it, over crashes and concurrent writers |
| RecordCommit.CommitStands | vfy/store.py:193-194 | a committed record is never changed |
| RecordCommit.OneCommitter | vfy/store.py:197-215 | at most one writer ever reaches the commit renames |
| RecordCommit.OutcomesAreExact | vfy/store.py:243-287 | what each ending says about the stored record |
| StoredTexts.Utf8Identifies | vfy/store.py:203-209 | texts with the same UTF-8 bytes are the same |
| StoredTexts.CanonicalLoads | vfy/store.py:839-851 | canonical text is taken back exactly when it has at most 1 MiB and nests at most 64 deep |
| RecordCommit.LoadsExactly | vfy/store.py:261-287 | a record loads exactly when it has an authorization where its receipt names one and each of its texts can be read back |
| RecordCommit.CanonicalRecordLoads | vfy/store.py:261-287 | for canonical texts: at most 1 MiB each and at most 64 deep |
| RecordCommit.RepeatIsIdempotent | vfy/store.py:243-258 | a repeat of the stored record changes nothing, and exactly how it ends |
| RecordCommit.LongCandidateRefused | vfy/store.py:203-228 | a record committed and then refused to its writer and to every repeat, for a candidate over 1 MiB |
| RecordCommit.UninterruptedCommits | vfy/store.py:182-228 | a writer left to run where nothing of its id is there commits its record, and returns if the record loads |
| IndexCache.NextKeeps | vfy/store.py:555-593 | unless a rename is interrupted after it happened, a writer touches only the slot it created |
| IndexCache.RunKeeps | vfy/store.py:555-593 | so over every such run, and the index is never partial |
| IndexCache.RunNamesApart | vfy/store.py:555-593 | over every run, that event included, no inode gets a second name, so nothing opened by path is what the index names |
| IndexCache.LateRenameLosesSlot | vfy/store.py:569-578 | after such an interruption, over any run of the others, the cleanup takes a slot from exactly the writer that holds the freed one, which created it in between |
| IndexCache.SlotCanBeLost | vfy/store.py:569-593 | and there is such a run from an empty store |
| IndexCache.IndexCanBeTorn | vfy/store.py:569-593 | which can go on to publish a torn index |
| IndexCache.UninterruptedPublishes | vfy/store.py:555-593 | a writer left to run with a slot free publishes its own document |
| Adoption.EveryCrashPoint | vfy/service_adoption.py:355-402 | at every crash point each file is wholly base or candidate, the replaced ones a prefix; no INTENT means BASE, COMPLETE means CANDIDATE with the pool settled; the loop runs at most once |
| Adoption.OneAtATime | vfy/service_adoption.py:338-356 | one attempt runs at a time and to its end, and one starts exactly where none runs and its nonce is not spent |
| PoolBytes.PublicationGrows | vfy/service_adoption.py:275-284 | the state file written with a digest where an entry had a null is 62 bytes longer, and one more where the revision takes another digit |
| Adoption.ReconcileIsExact | vfy/service_adoption.py:405-428 | the observer names the contents exactly when it can read the plan, observes the candidate only where the completion is there, and then exactly if it trusts the owner and can load the intent |
| Adoption.IntentDepth | vfy/service_adoption.py:358-363 | the intent loads exactly when each document in it nests at most 63 deep |
| Adoption.DeepSnapshotUnobserved | vfy/service_adoption.py:405-428 | an adoption with a snapshot 64 deep completes and settles and is never observed |
| Adoption.LongManifestStops | vfy/service_adoption.py:366-367 | for every plan whose candidate manifest is over 4 MiB the attempt spends the reservation and stops, and the copy stays BASE whatever happens later |
| Adoption.PaddedManifestSpends | vfy/service_adoption.py:143-180 | and such a plan is prepared and reserved |
| Adoption.ReplacedNeverCompletes | vfy/service_adoption.py:387-402 | an attempt that reaches its intent and cannot settle replaces every file and never completes |
| Adoption.ReadBackUnpaid | vfy/service_adoption.py:387-399 | a plan of that kind, for its read limit |
| Adoption.NoRoomToSettle | vfy/service_adoption.py:275-279 | another, for the room left in the pool's state file |
| Adoption.SpentReservation | vfy/service_adoption.py:315-323 | once a reservation is spent without an intent on disk, no later event changes the copy, the journal or the pool's entry |
| Adoption.NoRetry | vfy/service_adoption.py:356 | once an intent is written no later attempt changes anything |
| Adoption.ConsumedOnce | vfy/service_adoption.py:315-331 | a reservation is consumed at most once, by the process that made it |
| Adoption.UninterruptedAttempt | vfy/service_adoption.py:338-402 | how an attempt nothing interrupts ends, exactly, in terms of the limits, the lengths of manifest, intent and receipt, and the room in the pool's state file |
| Adoption.Meter.Charge | vfy/service_adoption.py:95-97 | charged exactly when it fits |
| Adoption.Meter.ReadAll | vfy/service_adoption.py:98-120 | reading file by file gets through exactly when all the bytes fit |
| ReceiptSize.ReceiptSizeIsDigits | vfy/service_tests.py:231-236 | the receipt's length depends on the count it records by its digits alone |
| ReceiptSize.ThreeUpdatesSuffice | vfy/service_tests.py:232-239 | the fourth of the eight rounds finds the count it recorded, for every size |
| ReceiptSize.ThreeUpdatesNeeded | vfy/service_tests.py:232-239 | an instance: a size for which fewer do not |
| ReceiptSize.Settle | vfy/service_tests.py:232-239 | the loop never runs out, and the count recorded is the least one that is right |
| Capture.CaptureStreams | vfy/runner.py:327-382 | whatever the chunking and interleaving, each stream is reported to its limit and truncation said exactly |

## Left out

- Ed25519, SHA-256, key files and hex handling are ideal digests and signatures.
- The operating system beyond atomic filesystem steps: symlinks, FIFOs, fsync and power loss, locks other than
  mutual exclusion, process groups and signals. A crash is a process ending between two steps.
- UTF-8 decoding, the host's `json.loads` (a reference reader stands for it), YAML tokenising (the model starts
  from events) and the regular expressions of reserved YAML scalars, which are a parameter of `YamlEvents`.
- Error messages, line and column numbers and token texts of the parser; only the characters left are kept, and
  whether a failure is one of syntax, of type or a surrogate.
- Keys of host objects that are not strings: such a value is one refused foreign value.
- The host's limit on the digits of an integer it converts.
- Schema validation other than the date-time format; inputs are taken to be valid against their schemas.
- Amounts.Table: that a row has the expected members and no others is taken from its type; from there on the ledger's
  rows carry the numbers, and how those are spelled again is a parameter.
- ChildLedger.VerifyReport: constant members of the records (schema names, false authority flags, fixed state texts) are
  written by the encoding and not checked again, and of the parent start only the least one with a given content
  is modelled.
- ChildLedger.Create: the store directory and its lock file are not modelled beyond one published snapshot.
- CapacityPools.Holders: the long comparison of request, preview and evidence texts that precedes an
  admission or consumption is one boolean in the pools.
- PoolObjects.CapacityOwner.Reserve: the owner marker written into the child ledger's directory is not modelled.
- PoolRuns.AdmitExactly: how many bytes a head takes is a parameter, of which only SuccessionNeedsRoom assumes
  anything: that an epoch takes twice what it holds in hexadecimal.
- PoolReading.CommonDepth: the members of the pool's records that are texts, numbers or flags by what is checked of them
  are not written out; they do not nest.
- PoolRuns.ConsumedAtMostOnce: the live capabilities of several processes are one set, which allows more than the
  code does.
- RecordCommit.CommitIsWhole: listing, scanning and rebuilding the index are not modelled.
- RecordCommit.LoadsExactly: that a receipt which loads has a receipt's members is taken from the one frozen.
- Adoption.EveryCrashPoint: the authorization and evidence checks before the journal are one precondition of an
  attempt; the frozen files, its intent and its receipt are their lengths.
- Adoption.UninterruptedAttempt: staging slots of the nonce store that are all occupied, or a publication of the pool
  left half way by another process, stop the attempt where a failure of the host would.
- ReceiptSize.Settle: counts beyond the range of safe integers, which canonical text refuses, are not covered.
- `vfy/service_review.py` beyond its pool, and the receipt, snapshot, custody, obligation, proposal, workflow, lifecycle
  and command-line modules: long conjunctions of field checks and plumbing.
