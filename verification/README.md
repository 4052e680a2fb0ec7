# PyreWire, modelled and verified in Dafny

PyreWire is a Python layer over the `libwirelog` Datalog engine. This project models the stateful
and arithmetical core of that layer and proves what it promises: the process-wide callback registry
and the two session classes, the value encodings, the row buffers, the caches, the deduplicating
insert, and the version check of the loader. The engine itself is abstract. Whatever it decides -
return codes, the ids it assigns, the callbacks it makes and the tokens it makes them with - is a
parameter, and the theorems hold for every choice of it.

Verify the whole project with `dafny verify dfyconfig.toml`.

## How the files fit together

| file | what it models |
|---|---|
| `Words.dfy`, `Binary64.dfy` | 64-bit words; binary64 values, roundTiesToEven and the interchange layout of IEEE 754-2019 |
| `Lanes.dfy` | typed lanes: `encode_lane`, `decode_lane`, `decode_typed_row` |
| `Intern.dfy`, `Facts.dfy`, `EasyRows.dfy` | the intern cache, the fact decoder, the row encoder and decoder of `EasySession` with its schema cache |
| `Buffers.dfy`, `TypedRows.dfy` | row-major buffers and typed row batches |
| `Dedupe.dfy` | `insert_with_dedupe` against the engine's z-set |
| `Protocol.dfy` | every call of the registry and of a session, as a function on values |
| `CallbackRegistry.dfy`, `Sessions.dfy` | the same as classes with mutable fields, each method proved equal to its function of `Protocol.dfy` |
| `Processes.dfy` | all session objects of a process over one registry object: every call of any of them is one step of a run |
| `Runs.dfy`, `Theorems.dfy` | any number of sessions over one registry: the invariants of every run, and the promises read off them |
| `Deliveries.dfy` | what steps and snapshots return over whole runs, against what the trampolines accepted |
| `Registrations.dfy` | which callbacks a step hears, and when a handle is armed |
| `EasySessions.dfy` | `EasySession` as a whole: the session object together with its row codec |
| `Reports.dfy`, `Outcomes.dfy` | what the engine's callbacks carry against what calls return, over the fields of the callbacks; what each call returns or raises, case by case |
| `Echo.dfy` | what is inserted comes back as it went in, across encoder, trampoline and decoder |
| `Version.dfy` | `_parse_version`, `_pep440_base` and the floor check |

`EasySession` and the advanced `Session` differ in few branches, so `Sessions.Session` models both,
told apart by its constant `easy`; the encoding side of `EasySession` is the class `EasyRows`. The
registry carries a history of what happened to its slots and in what circumstances the engine was
asked to evaluate. No modelled operation reads it; the theorems are about it.

A run (`Runs.Run`) is any sequence of happenings: a session is opened, or a session is called with
any operation and any reply of its engine. A reply gives the return code of each setter, whether a
failed setter took effect all the same, whether a setter also nulled the other slot, the return code
of the call, every callback made during it, and which input buffers the engine finished with. The
engine may also call back between two calls (`OpFire`). Three things are assumed of the engine: it
calls a trampoline only with a token given to it and with the function given along with that token;
when an evaluation returns OK it is done with all input buffers; and a failed insert or remove keeps
no buffer. Calls are atomic, and none is excluded after `close`. The theorems about well typed rows
in `EasyRows.dfy` and `Dedupe.dfy` speak of the engine's assignment of ids as one injective
function, of which a session's table holds some pairs: any table whose maps are inverse to each
other is such a table (`Intern.InverseIffSomeEngine`). Those in `Dedupe.dfy` assume one thing more:
the side program, a second parse of the same source, holds the inline rows the engine holds, with
the same symbol ids.

## What turned out not to hold

- A registration the engine refuses leaves a handle behind that is not armed, and later steps do not
  register it again: they succeed and report nothing (`Theorems.StepAfterRefusedRegistrationIsDeaf`).
  `Registrations.StepHearsIffRegistered` says exactly when a step hears what the engine reports, and
  `Registrations.StepsHearAfterRegistration` that a registration that returns makes up for all before.
- `InternTable.remember` may break the inverse of the two maps, as remembering two strings under one id
  does (`Intern.RememberingTwiceBreaksInverse`); `Intern.RememberKeepsInverse` gives the exact
  condition on the pair.
- `insert_with_dedupe` compares the caller's values with decoded inline rows, so it keeps the
  multiplicity of an inline row exactly when its preview recognizes the values it was given
  (`Dedupe.KeptIffStopped`, for every row that encodes). It does not recognize a symbol that is not in
  the intern table yet - the example of `docs/semantics/zset.md` expects False there - nor a raw id in
  a STRING column, an integer that wraps onto an inline one, a NaN, or anything at all when the source
  did not parse a second time; there is a witness for each. For rows of the schema's own types the
  exact condition is that the session has its side program and the row's symbol ids resolve
  (`Dedupe.InlineMultiplicityKeptIffResolved`).
- The expression that strips a local version segment admits letters, digits and dots only. PEP 440
  ("Local version identifiers") also reads `-` and `_` there, as separators before normalization; such
  a segment turns the patch number into zero (`Version.UnnormalizedSegmentLosesPatch`). The verdict
  against the floor is unaffected, because the floor's patch number is zero.
- A row count crosses into C as a `uint32_t`: of a batch of 2^32 rows or more the engine reads the
  first `nrows mod 2^32`, and none of exactly 2^32 (`Buffers.EngineReadsBatch`,
  `Buffers.BatchOfTwoToThe32IsLost`, `TypedRows.CountCoversDescriptors`).

## Model

| member | source | states |
|---|---|---|
| `Theorems.RegistryIsExact` | src/pyrewire/_core/callbacks.py:53-63 | over every run of any sessions, with any engine call failing: a registry slot exists exactly for each handle some session holds, no two sessions share one, and tokens are issued in strictly increasing order, so none is reused |
| `Theorems.ArmedSlotsAreOwnOrDead` | src/pyrewire/session.py:1050-1117 | after any run, each slot the engine has armed carries its own session's current handle of the same kind, or a token that is in no slot then or after any continuation of the run |
| `Theorems.DeadTokensStayDead` | src/pyrewire/_core/callbacks.py:191-194 | a token that was issued and closed never names a slot again, however the run goes on |
| `Theorems.EventsAreConserved` | src/pyrewire/_core/callbacks.py:73-194 | after any run, per token: the accepted events are, in order, those taken out by returning or raising drains and by closing, followed by those still queued; and each drain raised exactly the last fault since the drain before it |
| `Theorems.OthersQueuesAreUntouched` | src/pyrewire/_core/callbacks.py:82-94 | after any run, a call of one session leaves the queue and the stashed fault of every other session's handle as they were, whatever its engine calls back with |
| `Deliveries.StepReturnsWhatWasAccepted` | src/pyrewire/session.py:1100-1117 | at the end of any run, what step and step_typed return or raise for every reply: the refusal of a check or setter; else the engine's error, taking nothing out of the queue; else the fault then outstanding; else exactly the events accepted for the token and not taken out before |
| `Deliveries.SnapshotReturnsWhatWasAccepted` | src/pyrewire/session.py:1124-1134 | at the end of any run, what a snapshot returns or raises by the same rule, on a token never used before whose slot and queue are gone afterwards either way |
| `Deliveries.AcceptedEventsAreDelivered` | src/pyrewire/_core/callbacks.py:73-194 | after any run, per token: each accepted event was returned to a caller, discarded by a raising drain or by closing, or is still queued, exactly one of the three and once; while nothing was discarded, the values the calls returned, one after the other, and then the queue are the accepted events in order |
| `Deliveries.RunDelivers` | src/pyrewire/session.py:1113-1117 | over any run, what the successful steps and snapshots returned for a token, one after the other, is what its drains took out without raising |
| `Theorems.RegisteringStoresAndArms` | src/pyrewire/session.py:1077-1098 | registering succeeds if and only if the engine accepts the setter and any clearing of the other kind; the slot then holds the callable, the engine is armed with it, and a handle that was there keeps its queue |
| `Theorems.ClearingDropsTheHandle` | src/pyrewire/session.py:1064-1082 | clearing raises exactly the engine's refusal, and drops handle and slot unless an EasySession was refused |
| `Theorems.CloseReleasesEverything` | src/pyrewire/session.py:1190-1213 | closing an open session, whatever the engine answers: nothing stays armed or kept alive, handle and slot are gone, every compound raises, and closing again changes nothing |
| `Theorems.RunArmsExactly` | src/pyrewire/session.py:1050-1112 | over any run in which a session's clears and registrations return OK, its engine has nothing armed but the current handle's slot with the current handle's token |
| `Theorems.StepsRunArmed` | src/pyrewire/session.py:928-989 | over any run in which the session's setters return OK: at most one slot is armed, and every step that returns ran with its own kind armed |
| `Registrations.StepsHearAfterRegistration` | src/pyrewire/session.py:1077-1117 | from a registration that returned, after any run, every later step of that kind runs armed until the session clears, turns to the other kind or closes, whatever else is called, fails or is refused in between |
| `Registrations.StepHearsIffRegistered` | src/pyrewire/session.py:1100-1117 | exact, when refused setters have no effect: at the end of any run a step that reaches the engine and succeeds finds all callbacks of its kind if it makes its handle or the engine ever accepted the handle it holds, and only what was queued before if not |
| `Registrations.StepHearsIffArmed` | src/pyrewire/session.py:1113-1117 | at the end of any run, what a step finds is spelled out by the reply: what was queued, followed by the events of the callbacks through the slot of its kind if that slot names its token, and by none of them if not; likewise the fault it raises |
| `Registrations.RunArmsIffRegistered` | src/pyrewire/session.py:1092-1112 | over any run in which refused setters have no effect, the handle a session holds is armed if and only if the engine accepted it since it was made |
| `Registrations.CallbacksAreAccepted` | src/pyrewire/_core/callbacks.py:73-145 | for a live token, what the trampolines accept, queue and stash during an evaluation is exactly what the callbacks carrying it amount to, in order |
| `Theorems.StepAfterRefusedRegistrationIsDeaf` | src/pyrewire/session.py:1092-1112 | counterexample to arming without that condition: a refused registration, then a step that succeeds and reports nothing |
| `Theorems.CallFixesMode` | src/pyrewire/session.py:1229-1238 | for every operation: the first to reach the mode check fixes the mode whatever becomes of it, one in the wrong mode raises and changes nothing, and the rest leave the mode alone |
| `Theorems.ModeIsFirstWanted` | src/pyrewire/session.py:559-574 | over any run, the mode is the one the session had, or the one the first operation to reach the check asked for |
| `Theorems.SuccessFixesMode` | src/pyrewire/session.py:1229-1238 | a call that returns in one family leaves the session in that family's mode for the rest of the run |
| `Theorems.FamiliesExclude` | src/pyrewire/session.py:592-594 | in no run does one session return from both a step and a snapshot |
| `Theorems.InputsAreKeptAlive` | src/pyrewire/session.py:273-301 | after any run every buffer the engine may still read is on the session's list, and every evaluating call of the history began with all such buffers on it |
| `Theorems.BuffersAreReleasedLate` | src/pyrewire/session.py:363-409 | a successful insert or remove, by symbols even if mirroring them fails, puts its buffer on the list, a refused one does not, and a buffer leaves it only at close or by a step or snapshot that returns |
| `Theorems.Teardown` | src/pyrewire/session.py:517-542 | from the opening of any session through any later run: it is closed exactly if close was called, the native handle was then released once, EasySession's side program freed once, and a borrowed program never |
| `Theorems.OpeningASession` | src/pyrewire/session.py:597-622 | opening changes anything exactly if the engine grants it, and then adds one session that is open, has no mode and holds nothing |
| `Theorems.HandleAnswersIffNeitherEnded` | src/pyrewire/compound.py:51-81 | from the moment a compound is made, through any later run: its handle is the non-zero one the engine returned if and only if neither close of its session nor its own invalidate was called, and raises ever after either |
| `Theorems.RunClosesIffCalled` | src/pyrewire/session.py:1190-1213 | over any run a session is closed if and only if close was called, and is never reopened |
| `Theorems.RunKeepsCompounds` | src/pyrewire/compound.py:51-81 | over any run a session never forgets a compound or changes its raw handle, and while it is open a compound is invalidated if and only if its invalidate was called |
| `Theorems.CallKeepsCompounds` | src/pyrewire/session.py:1170-1183 | each single operation keeps every compound in place with its raw handle; only make_compound adds one, carrying the handle the engine returned; only invalidate and close end one, and only close closes |
| `Runs.RunKeepsWorld` | src/pyrewire/session.py:928-1213 | every run keeps the invariant of the process: registry in order, queues balanced, slots own or dead, handles and slots one to one |
| `Runs.ApplyKeeps` | src/pyrewire/session.py:322-542 | every operation, on every path, keeps its session's invariant and leaves all other slots alone |
| `Runs.SetCallbackKeeps` | src/pyrewire/session.py:1077-1098 | setting or clearing a callback, with either setter failing, keeps the invariant |
| `Runs.StepKeeps` | src/pyrewire/session.py:1100-1117 | a step, failing at the clear, the registration, the engine or the drain, keeps the invariant |
| `Runs.RunSnapshotKeeps` | src/pyrewire/session.py:1124-1134 | a snapshot leaves no slot behind, on the raising path as on the returning one |
| `Runs.EmitAllKeeps` | src/pyrewire/_core/callbacks.py:73-145 | any sequence of callbacks during an evaluation changes only the caller's own slots, and none through a dead token |
| `Runs.CloseKeeps` | src/pyrewire/session.py:1190-1213 | close keeps the invariant even when the engine refuses the clear |
| `Processes.Process.Call` | src/pyrewire/session.py:928-1213 | for any number of session objects over one registry object: a call of one of them, with any operation and any engine reply, is exactly one step of a run, answers as the protocol says, and keeps every other session object intact |
| `Processes.Process.InvalidateCompound` | src/pyrewire/compound.py:79-81 | a caller invalidating a compound object it was handed is one step of a run too, and touches no other session |
| `Processes.Process.Open` | src/pyrewire/session.py:145-197 | opening a session object, or being refused one, with a side program or without, is one step of a run |
| `Processes.Process.RegistryKeysAreHandles` | src/pyrewire/_core/callbacks.py:53-63 | at every call boundary the registry dictionary's keys are exactly the tokens of the handles that session objects hold, and distinct tokens have distinct state objects |
| `CallbackRegistry.CallbackTable.Trampoline` | src/pyrewire/_core/callbacks.py:73-145 | a trampoline appends the decoded event to the slot its token names, or stashes the fault there, and lets no fault out; a dead token does nothing |
| `CallbackRegistry.CallbackHandle.constructor` | src/pyrewire/_core/callbacks.py:158-164 | a new handle takes the next token and a state object of its own |
| `CallbackRegistry.CallbackHandle.DrainQueue` | src/pyrewire/_core/callbacks.py:180-189 | the queue is emptied whether or not the stashed fault is raised |
| `CallbackRegistry.CallbackHandle.Close` | src/pyrewire/_core/callbacks.py:191-194 | closing removes this handle's slot only, and is idempotent |
| `Sessions.Session.SetDeltaCallback` | src/pyrewire/session.py:928-963 | the object's new state and outcome are those of the protocol, for both sessions and both kinds |
| `Sessions.Session.ClearDeltaCb` | src/pyrewire/session.py:1050-1075 | the handle is closed and dropped even when the engine refuses the clear |
| `Sessions.Session.EasyClear` | src/pyrewire/session.py:346-353 | in EasySession a refused clear keeps the handle |
| `Sessions.Session.DoStep` | src/pyrewire/session.py:965-989 | step and step_typed follow the protocol on every path |
| `Sessions.Session.SnapshotOnce` | src/pyrewire/session.py:918-926 | a snapshot's temporary handle is made, used and closed as the protocol says |
| `Sessions.Session.DoUpdate` | src/pyrewire/session.py:676-690 | inserts and removes check the mode only in the advanced session, keep the buffer only in EasySession, and raise the engine's row diagnostic only on the typed path |
| `Sessions.Session.DoUpdateSym` | src/pyrewire/session.py:455-480 | the mode check comes before the limit of 16 symbols, and the buffer is kept even if mirroring the symbols fails |
| `Sessions.Session.DoMakeCompound` | src/pyrewire/session.py:87-118 | only an OK return code with a non-zero handle makes a compound |
| `Sessions.Session.DoClose` | src/pyrewire/session.py:517-542 | close invalidates the listed compounds, drops the handle and destroys the native session, once |
| `Sessions.NativeSession.Evaluate` | src/pyrewire/session.py:1113-1115 | an evaluating call has the effect of its callbacks in order, and gives up the buffers the engine finished with |
| `Sessions.CompoundObject.RawHandle` | src/pyrewire/compound.py:60-77 | the object answers what its session's state says of it: the raw handle, or ValueError once it is invalidated or the session closed |
| `Sessions.CompoundObject.Invalidate` | src/pyrewire/compound.py:79-81 | invalidating marks this compound of its session and no other |
| `Lanes.IntegerColumnAcceptsExactIntegers` | src/pyrewire/_core/lanes.py:86-107 | for every value: an integer column accepts it if and only if it stands for an integer that survives its route, directly or through a binary64, and then stores that integer's two's-complement bits |
| `Lanes.FractionBoundaries` | src/pyrewire/_core/lanes.py:110-148 | an exact rational that is no integer is refused, every integer up to 2^53 in magnitude is accepted, and every odd one beyond is refused |
| `Lanes.FloatColumnHoldsTheNearest` | src/pyrewire/_core/lanes.py:82-84 | a FLOAT column takes a float's own bits, and of an int, a bool or a fraction the bits of a nearest double of its sign; it refuses what is no number with TypeError and too large a one with OverflowError |
| `Lanes.IntegerColumnErrors` | src/pyrewire/_core/lanes.py:55-62 | which error an integer column raises: TypeError for what is no number, OverflowError for a fraction beyond the doubles, ValueError otherwise |
| `Lanes.BoolLanes` | src/pyrewire/_core/lanes.py:178-179 | a BOOL lane decodes to True if and only if it is not zero, and a bool goes into an integer column as 0 or 1 |
| `Lanes.ExactNumbers` | src/pyrewire/_core/lanes.py:110-117 | which number each value stands for, a fraction's told without division |
| `Lanes.TypeCodes` | src/pyrewire/_ffi/_enums.py:28-37 | the seven column types have the codes zero to six in the order of the enumeration, and no other code is one |
| `Lanes.IntegerLaneIsTheResidue` | src/pyrewire/_core/lanes.py:169-182 | decoding an integer's lane gives the one congruent value in the column's range; the round trip is the identity exactly on that range; two integers share a lane exactly when congruent mod 2^64 |
| `Lanes.LaneRoundTrip` | src/pyrewire/_core/lanes.py:41-182 | a value of the column's own type comes back as it went in |
| `Lanes.DecodeTypedRow` | src/pyrewire/_core/lanes.py:185-196 | a descriptor decodes column by column through its offsets and codes, or fails at the first unknown code |
| `Binary64.BitsIsABijection` | src/pyrewire/_core/lanes.py:82-84 | non-NaN doubles and their bit patterns correspond one to one, and only the two zeros share a value (IEEE 754-2019 section 3.4) |
| `Binary64.BitsUndoesOfBits` | src/pyrewire/_core/lanes.py:175-177 | every pattern that is not a NaN is recovered from the float it decodes to |
| `Binary64.WordsAreOrderedAsValues` | src/pyrewire/_core/lanes.py:175-177 | below the pattern of infinity, words decode to the non-negative finite doubles in increasing order of value, from zero up (IEEE 754-2019 section 3.4) |
| `Binary64.TopBitIsTheSign` | src/pyrewire/_core/lanes.py:175-177 | the top bit flips the sign of the value; 0x7FF0000000000000 is infinity and the words above it are NaN |
| `Binary64.PatternOfOne` | src/pyrewire/_core/lanes.py:82-84 | 1.0 is 0x3FF0000000000000, and float("nan") 0x7FF8000000000000 |
| `Binary64.RoundMagnitudeIsNearestEven` | src/pyrewire/_core/lanes.py:151-159 | conversion to float picks a representable value no other is nearer than, the even one of two (IEEE 754-2019 section 4.3.1) |
| `Binary64.FloatOfIsNearest` | src/pyrewire/_core/lanes.py:151-159 | of a real of either sign, float() gives a value no finite double is nearer than, the even one of two, with the sign of the number |
| `Binary64.FloatOfOverflowsIff` | src/pyrewire/_core/lanes.py:154-157 | float() raises OverflowError exactly from (2^54 - 1) * 2^970 in magnitude on |
| `Binary64.FloatOfIsExactOnDoubles` | src/pyrewire/_core/lanes.py:151-159 | conversion changes no value that a double denotes |
| `Binary64.OddIntegersBeyondAreNot` | src/pyrewire/_core/lanes.py:52-54 | no double denotes an odd integer beyond 2^53 |
| `Binary64.SmallIntegersAreRepresentable` | src/pyrewire/_core/lanes.py:94-107 | every integer up to 2^53 in magnitude is denoted by a double |
| `Words.WrapIsTheSignedResidue` | src/pyrewire/session.py:672-673 | storing an integer in an int64 cell leaves the one congruent value of the signed range |
| `Intern.RunRefinesEngine` | src/pyrewire/_core/intern.py:37-70 | over every run fed by one injective engine the two maps are exact inverses, every pair is the engine's, and growth changes no earlier answer |
| `Intern.InverseIffSomeEngine` | src/pyrewire/_core/intern.py:26-35 | a table holds pairs of some injective engine if and only if its maps are inverse to each other |
| `Intern.AskedAtMostOnce` | src/pyrewire/_core/intern.py:37-50 | over every run, whatever is answered or remembered, each string is interned by the engine successfully at most once |
| `Intern.RunKeepsCover` | src/pyrewire/_core/intern.py:37-70 | over every run every id handed out can be looked up, and every string looked up has an id |
| `Intern.RememberKeepsInverse` | src/pyrewire/_core/intern.py:65-70 | remember keeps the maps inverse if and only if the pair contradicts neither map |
| `Intern.RememberingTwiceBreaksInverse` | src/pyrewire/_core/intern.py:65-70 | a witness: remembering two strings under one id |
| `Intern.InternTable.Intern` | src/pyrewire/_core/intern.py:37-50 | the engine is asked exactly when the string is not cached, and a negative answer caches nothing |
| `Intern.InternTable.LookupId` | src/pyrewire/_core/intern.py:52-63 | lookup answers from the reverse map or raises |
| `Intern.AnswersOfOneCall` | src/pyrewire/_core/intern.py:37-70 | each call answers the cached id, else the engine's, else raises and caches nothing; what was interned or remembered can be looked up and is answered again |
| `EasyRows.RowRoundTrip` | src/pyrewire/session.py:411-497 | a well typed row that encoded once decodes to itself at once and after every later growth of the cache |
| `EasyRows.RoundTripIsNotVacuous` | src/pyrewire/session.py:482-497 | its conditions are met for every string and every id from zero up that an int64 holds |
| `EasySessions.EasySession.RowComesBackUntilClose` | src/pyrewire/session.py:411-437 | in a session opened with its side program, at any time: a well typed row that encoded decodes to itself while the session is open, and to the raw cells it was stored as from close on |
| `EasySessions.EasySession.Update` | src/pyrewire/session.py:273-301 | insert and remove encode the row, keep what was interned, and then follow the protocol: they return and keep the buffer exactly if the row encoded and the engine accepts, and raise the encoding's error or the engine's code if not |
| `EasySessions.EasySession.Step` | src/pyrewire/session.py:363-384 | step returns the protocol's events decoded one by one through the side program, or its error |
| `EasySessions.EasySession.Snapshot` | src/pyrewire/session.py:391-409 | snapshot returns the protocol's events decoded one by one through the side program, or its error |
| `EasySessions.EasySession.Close` | src/pyrewire/session.py:517-542 | close follows the protocol and forgets the side program and its schemas |
| `EasyRows.EncodedRowIsTheEnginesCode` | src/pyrewire/session.py:482-497 | a well typed row encodes to the engine's own code of it whatever the cache held before, or stops at a refused symbol |
| `EasyRows.ErrorsStop` | src/pyrewire/session.py:482-497 | the first value that raises decides the outcome, and the values behind it have no effect |
| `EasyRows.RowAndFactDecodersAgree` | src/pyrewire/session.py:411-437 | the session's row decoder equals the program's fact decoder on every row of the schema's width |
| `EasyRows.UndecodedCells` | src/pyrewire/session.py:424-436 | a symbol whose id is not cached stays a raw id, and so does every cell beyond the schema or without one |
| `EasyRows.RefusedCells` | src/pyrewire/session.py:484-496 | the row encoder raises TypeError exactly for what is no bool, int, float or str, InternError exactly for a new symbol the engine refuses, and caches nothing then |
| `EasyRows.UntypedAndTypedPathsAgree` | src/pyrewire/session.py:482-497 | a well typed value that is no string is stored by insert as the very bits insert_typed stores |
| `EasyRows.EasyRows.RowToInt64` | src/pyrewire/session.py:482-497 | the encoder's loop computes the row's code and leaves interned what it interned before an error |
| `EasyRows.EasyRows.Decode` | src/pyrewire/session.py:411-437 | as many values come out as went in: typed while the schema lasts, raw beyond it and without one |
| `EasyRows.EasyRows.SchemaFor` | src/pyrewire/session.py:212-232 | the cache never shows: the answer is the program's, and only successes are cached |
| `EasyRows.EasyRows.PreviewInlineFacts` | src/pyrewire/session.py:254-259 | nothing without a side program or for an undeclared relation, else the program's decoded facts or their error |
| `EasyRows.EasyRows.Forget` | src/pyrewire/session.py:525-528 | the side program is gone and no relation has a schema; EasySession.Close calls it |
| `Facts.LaneAndFactDecodersAgree` | src/pyrewire/program.py:218-236 | the lane decoder and the fact decoder agree on a word if and only if it is not an unsigned one with the top bit set, and there they differ by 2^64 |
| `Facts.DecodeFacts` | src/pyrewire/program.py:217-236 | facts decode row by row, or raise if some row has another width than the schema |
| `Dedupe.DedupeIsSafe` | src/pyrewire/session.py:261-286 | with a side program, resolved inline symbols and well typed rows, any sequence of calls leaves every inline row's multiplicity as it was and raises any other row's by the number of calls that returned True for it |
| `Dedupe.InlineMultiplicityKeptIffResolved` | src/pyrewire/session.py:261-269 | one call on a well typed inline row leaves its multiplicity alone if and only if the session has a side program and the row's symbol ids resolve |
| `Dedupe.DuplicateIffResolved` | src/pyrewire/program.py:221-228 | a well typed inline row is recognized as a duplicate if and only if the session has a side program and the row's symbol ids resolve |
| `Dedupe.CallEffect` | src/pyrewire/session.py:261-286 | for any row, in any session: a call that returns True adds the row's code once, any other call adds nothing, and True is returned exactly when the row encodes, the engine accepts and the preview does not stop the call |
| `Dedupe.CallOutcome` | src/pyrewire/session.py:261-286 | what a call raises and in which order - an inline row of the wrong width, encoding, the engine - and that what encoding interned stays interned whatever follows |
| `Dedupe.KeptIffStopped` | src/pyrewire/session.py:261-269 | for every row that encodes and is accepted, well typed or not: its code's multiplicity is kept if and only if a side program declares the relation and its facts raise or contain the row; no other multiplicity changes |
| `Dedupe.RunAddsWhatReturnedTrue` | src/pyrewire/session.py:261-286 | any sequence of calls with any rows and failures raises each multiplicity by exactly the calls that returned True for it, so it is kept if and only if every call that would raise it was stopped by the preview |
| `Dedupe.UnresolvedSymbolDoubles` | src/pyrewire/program.py:221-228 | a witness: an inline row whose symbol the session has not interned is doubled |
| `Dedupe.RawIdDoubles` | src/pyrewire/session.py:487-488 | a witness: a raw id in a STRING column doubles the inline row with that id, though the id resolves |
| `Dedupe.WrappedIntegerDoubles` | src/pyrewire/session.py:275-276 | a witness: an integer beyond the signed range doubles the inline row it wraps onto |
| `Dedupe.NotANumberDoubles` | src/pyrewire/session.py:489-492 | a witness: a NaN equals no inline row, its own included |
| `Dedupe.NoSideProgramDoubles` | src/pyrewire/session.py:254-255 | a witness for every integer: without a side program an inline row is doubled |
| `Dedupe.InsertWithDedupe` | src/pyrewire/session.py:261-269 | previewing through the side program, if there is one, then comparing, encoding and inserting compose to the call as specified |
| `Dedupe.EqualityIsNumeric` | src/pyrewire/session.py:265-267 | row values are equal exactly if they stand for the same number or are the same string, across types; a NaN equals nothing |
| `Dedupe.EqualAcrossTypes` | src/pyrewire/session.py:265-267 | True equals 1 and 1.0, and -0.0 equals 0.0 |
| `Buffers.Flatten` | src/pyrewire/session.py:662-674 | a batch is accepted if and only if it is empty, or has a column and only rows of the first one's width with values int() takes; its buffer then holds int() of every value in row-major order, and otherwise the first misfit decides the error |
| `Buffers.ReadCallback` | src/pyrewire/io_adapter.py:112-146 | the adapter's buffer is handed over row-major if every row has the declared width and values int() takes; otherwise nothing is, a row of another width is answered with -1, and a value int() refuses raises |
| `Buffers.ToIntTruncates` | src/pyrewire/session.py:672-673 | int() of anything that stands for an exact number is the one integer not larger in magnitude, less than one away and not of the opposite sign |
| `Buffers.ToIntOfTheRest` | src/pyrewire/session.py:672-673 | int() of infinity, NaN, digit strings and what is no number |
| `Buffers.PlainBatchReadsBack` | src/pyrewire/program.py:195-201 | a rectangular batch of int64 integers fits, and any buffer holding it row by row reads back as those integers |
| `Buffers.FlattenAndReadBack` | src/pyrewire/session.py:662-674 | what _flatten hands over for such a batch reads back as the batch |
| `Buffers.AdapterAndReadBack` | src/pyrewire/io_adapter.py:126-144 | what the adapter's read callback hands over for such a batch reads back as the batch |
| `Buffers.ReadBackUndoesFill` | src/pyrewire/program.py:195-201 | reading a filled buffer gives the rows back modulo 2^64, and unchanged if and only if all values are in the int64 range |
| `Buffers.FactsRawWithoutRows` | src/pyrewire/program.py:195-198 | ExecError exactly for code -1; no rows for code 1, a zero count or no data |
| `Buffers.IndexIsABijection` | src/pyrewire/session.py:669-673 | every cell of the buffer belongs to exactly one row and column, in bounds |
| `Buffers.EngineReadsBatch` | src/pyrewire/session.py:682-689 | of a batch the engine reads the first nrows mod 2^32 rows, all of them if and only if there are fewer than 2^32 |
| `Buffers.BatchOfTwoToThe32IsLost` | src/pyrewire/session.py:682-689 | a witness: of a batch of 2^32 rows the engine reads none |
| `TypedRows.TypedIud` | src/pyrewire/session.py:824-854 | over the declared columns: the batch reaches the engine, once, if and only if it is truthy and non-empty, no column is an inline compound, and every row has the schema's width and encodes column by column as declared; codes and lanes are then in declaration order and the count is that of the descriptors built; else the first row that fails decides the error |
| `TypedRows.BuildTypedRows` | src/pyrewire/session.py:754-798 | a batch builds if and only if every row has schema width and every value encodes; the first row that does not decides the error |
| `TypedRows.FillLanes` | src/pyrewire/session.py:782-784 | the lanes of a row, or the error of its first value that does not encode |
| `TypedRows.DescriptorReadsBack` | src/pyrewire/_core/lanes.py:185-196 | decoding a built descriptor yields, column by column, the decoded encoding of each value, and the row itself for values of the columns' own types |
| `Echo.TypedRowEchoes` | src/pyrewire/_core/callbacks.py:120-145 | a typed row handed back in the descriptor it was given is queued as the row that was inserted |
| `Echo.EasyRowEchoes` | src/pyrewire/session.py:380-384 | a well typed row handed back cell by cell at any later time is queued and decoded as the row that was inserted |
| `Reports.TrampolinesQueueWhatIsCarried` | src/pyrewire/_core/callbacks.py:73-145 | over the callback's own fields, for all three kinds: its name, row and difference are queued if and only if they can be read, its first fault is stashed if and only if they cannot, and only a typed callback without a descriptor is ignored |
| `Reports.SnapshotReturnsTheRows` | src/pyrewire/session.py:1124-1134 | at the end of any run, a snapshot that nothing refuses and the engine answers with OK returns exactly the names and rows its callbacks carry, in order |
| `Reports.SnapshotReturnsTheCells` | src/pyrewire/session.py:1124-1134 | the same spelled out for named rows of cells |
| `Reports.StepReturnsTheDeltas` | src/pyrewire/session.py:1100-1117 | at the end of any run, a step that hears returns what was queued and then exactly the names, rows and differences its callbacks carry, in order |
| `Reports.StepReturnsTheCells` | src/pyrewire/session.py:1100-1117 | the same spelled out for named rows of cells with differences, from an empty queue |
| `Reports.EventsAreDecodedOneByOne` | src/pyrewire/session.py:382-384 | each decoded event has the relation and difference of the raw event of its index, and that event's cells decoded by its own relation's schema, as far as there is one |
| `Reports.EasyStepGivesRowsBack` | src/pyrewire/session.py:363-384 | end to end: rows that were inserted, handed back by delta callbacks with their differences, come out of EasySession.step as those rows with those differences, in order |
| `Reports.EasySnapshotGivesRowsBack` | src/pyrewire/session.py:391-409 | end to end: rows that were inserted, handed back by a snapshot's callbacks, come out of EasySession.snapshot as those rows, in order |
| `Reports.InsertedRowIsKnown` | src/pyrewire/session.py:273-286 | a well typed row that encoded meets the condition of the two end to end results at once and after every later growth of the cache |
| `Outcomes.RefusedCallsRaise` | src/pyrewire/session.py:928-989 | every call refused by a check - the class's surface, the typed entry points, the printer, the mode, 16 symbols - raises that check's error, in the order of the checks, and leaves all but the mode alone |
| `Outcomes.SurfaceOfTheClasses` | src/pyrewire/session.py:363-480 | which calls each of the two classes has |
| `Outcomes.RefusedSwitchDropsTheHandle` | src/pyrewire/session.py:1085-1088 | turning to the other kind when the engine refuses the clearing: the old handle and its slot are gone, no new one is made, and the call raises |
| `Outcomes.SettersOfTheEngine` | src/pyrewire/session.py:1053-1062 | what is left open about the engine's setters: an accepted one takes effect, a refused one may or may not, and either may null the other slot |
| `Outcomes.UpdateOutcome` | src/pyrewire/session.py:676-706 | an insert or remove that is not refused returns exactly if it had no rows, or they encoded and the engine accepts; else it raises their error, the row diagnostic or the engine's code |
| `Outcomes.UpdateSymOutcome` | src/pyrewire/session.py:455-480 | insert_sym and remove_sym return exactly if the engine accepts and the symbols are mirrored, and keep the buffer exactly if the engine accepts |
| `Outcomes.MakeCompoundOutcome` | src/pyrewire/session.py:87-118 | make_compound returns exactly for an OK code with a non-zero handle, and then adds one compound with it |
| `Outcomes.EvaluationReleasesInputs` | src/pyrewire/session.py:380-406 | a step or snapshot of EasySession that returns releases all inputs, one that raises none; and only one that returns is recorded as a success of its family |
| `Outcomes.FireIsHeard` | src/pyrewire/_core/callbacks.py:82-94 | a callback between two calls is queued on the session's own armed handle |
| `Outcomes.EvaluationIsRecorded` | src/pyrewire/session.py:1113-1115 | the history holds every evaluation with the buffers the engine then held and those the session then kept |
| `Version.ParseUndoesPrint` | src/pyrewire/_ffi/_loader.py:146-169 | parsing undoes printing for all triples and every dot-led suffix; behind a plus sign if and only if the segment is one the expression strips or the patch number is zero |
| `Version.AcceptsIffAtLeastFloor` | src/pyrewire/_ffi/_loader.py:200-207 | a printed version, with any dot-led or plus-led rest, is accepted if and only if its triple is lexicographically at least the floor, that is from 0.52 on |
| `Version.UnnormalizedSegmentLosesPatch` | src/pyrewire/_ffi/_loader.py:146-151 | a witness: 0.52.1+py_1 parses as 0.52.0 |
| `Version.StripKeepsTriple` | src/pyrewire/_ffi/_loader.py:149-151 | stripping the local segment changes nothing in front of it |
| `Version.StrippableIff` | src/pyrewire/_ffi/_loader.py:146 | a segment is stripped if and only if it is not empty and has only the expression's characters, but for one newline at its end |
| `Version.Characters` | src/pyrewire/_ffi/_loader.py:146-164 | the expression's characters and the spaces of int(), by code point |
| `Version.ParseVersion` | src/pyrewire/_ffi/_loader.py:154-169 | the two loops compute, per component, its number up to the first that is not one and zero from there on |
| `Version.OneComponent` | src/pyrewire/_ffi/_loader.py:160-169 | a single number has zero for the other two, and an empty string for all three |
| `Version.TwoComponents` | src/pyrewire/_ffi/_loader.py:160-169 | two numbers have zero for the third |
| `Version.BrokenComponent` | src/pyrewire/_ffi/_loader.py:162-168 | a component that is no number stops the parse there |
| `Version.IntOfSurrounded` | src/pyrewire/_ffi/_loader.py:163-164 | int() takes spaces around a number and a sign in front |
| `Version.UnderscoresBetweenDigits` | src/pyrewire/_ffi/_loader.py:163-164 | int() takes single underscores between digits only |

## Left out

- The engine: fixpoint evaluation, which deltas it derives, and its own refusals (a FLOAT column on the untyped path) appear only as return codes and callbacks it may choose.
- Overlapping calls: locks and threads; calls of the API are atomic, and draining and clearing the input list outside the lock are modelled for calls that do not overlap.
- `EasySession.step` dispatching its events to the user's callable, and a decoding or callable that raises after the drain.
- Runs.ApplyKeeps: knows what became of a caller's rows as one of three outcomes (nothing to send, a raised error, a buffer). `EasySessions.EasySession.Update` computes it for `EasySession`; for the advanced session `Flatten` and `TypedIud` stand on their own.
- Calls other than `close` on a closed session: the model lets them reach an engine that has nothing armed; what the real engine answers to a null handle is not known.
- Buffers.ReadCallback: the buffer the rejecting path does not free, and what ctypes makes of the exception it lets out, are not modelled.
- Dedupe.InsertWithDedupe: row values are compared by value; unhashable values, which raise the TypeError that encoding would raise, and objects with comparison methods of their own are not modelled.
- Dedupe.DedupeIsSafe: holds for well typed rows; what holds of all rows is `Dedupe.RunAddsWhatReturnedTrue`.
- Compounds constructed directly by a caller rather than by `make_compound`.
- Garbage collection: a handle or session dropped without `close`, whose finalizer closes it.
- NaN payloads: the model has one NaN, so bit patterns of NaNs are outside the round trips.
- Lanes.IntegerColumnAcceptsExactIntegers: exact rationals stand for all registered number types; `Decimal`, and types whose `__eq__`, `__index__` or `__float__` misbehave, are not modelled.
- `register_adapter` / `unregister_adapter`, `Program.schema` and `Program.close`: dictionary and handle bookkeeping.
- `snapshot_arrays` beyond its protocol, the NumPy batch path, `batch.py`, `asyncio_session.py`, `ir.py`, helpers and error tables: library behaviour or easy members.
- ctypes registration, struct layouts, symbol probing, the variadic call of `_sym_call`, library discovery and loading.
- Version.ParseVersion: `int()` is modelled on Latin-1 text; other Unicode digits and spaces and CPython's limit of 4300 digits are not.
- Text that cannot be encoded as UTF-8 (lone surrogates) in relation names and symbols.
- EasyRows.RowRoundTrip: NaN is excluded because it does not equal itself.
