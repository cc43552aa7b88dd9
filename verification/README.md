# A verified model of the repository's decoders and protocols

The project models nine parts of the repository and proves what each is for.

- **The DEFLATE decoder** that a browser worker carries as text (`BitStream`, `Huffman`, `Deflate`, `Trees`,
  `FixedTables`, `Inflater`, `RoundTrip`, `StoredRoundTrip`, `StreamRoundTrip`, `Encodable`, `Completeness`,
  `Truncation`, `Departures`, `Repaired`, `CleanTokens`, `CleanHeaders`, `CleanStreams`, `ProgramRoundTrip`,
  `Anomalies`). `Deflate` says what decoding means on an ideal stream of bits and canonical codes, with no buffer and no
  tree. `Inflater` is the program: a 31-bit buffer, trees in arrays, an output buffer whose overlong writes are dropped.
  Each of its methods is proved to compute what `Deflate` says, on every input, malformed and truncated ones included.
  The round-trip modules give an encoder for RFC 1951 and prove that the decoder, and the program with it, inverts it;
  the clean-reading modules prove the converse, that a source which reads without an anomaly is the encoding of what it
  reads as; `Truncation` says which inputs make the decoder run for ever, and `Anomalies` what it does with the rest.
- **The template expression language** (`Templates`, `TemplateSyntax`, `TemplateTheorems`, `TemplateMeanings`).
  `resolve` searches raw text; the grammar, with every gap and parenthesis written down, and its meaning are separate,
  and the two are proved to agree. Values and JavaScript's operators are a parameter, so the theorem holds for any of
  them.
- **The hot-swapped component** (`HotSwap`): when the logic class changes, who is mounted and unmounted.
- **The passkey step-up** (`Passkeys`, `PasskeyTheorems`, `PasskeyTraces`): challenges, credentials, counters, approvals,
  delivery. The clock is a number in each request and nothing assumes that it moves forward.
- **Team roles** (`TeamRoles`, `TeamEffects`), **the key/value store** (`JsonStore`), **the async queue** (`AsyncInbox`), **the worker
  pool** (`WorkerPool`), **the VIN check digit** (`Vin`) and **the monthly order exports** (`MonthOrders`).

## What the code does not do

Where the code departs from its standard or its purpose, the model follows the code, a concrete case shows the
departure, and the exact condition is proved.

- A stored block whose header ends on a byte boundary is read one byte late. Section 3.2.4 of RFC 1951 holds exactly
  when the header does not end there (`StoredRoundTrip.StoredDecodesIffUnaligned`); a valid stream for four bytes is
  refused (`Departures.TwoRefused`). Whole streams decode right exactly when no stored block is aligned, provided the
  first aligned one is the last block, or holds bytes that do not start with the low byte of their own number
  (`StreamRoundTrip.StreamDecodesIff`). The proviso is needed: `Repaired.MisreadIsRepaired` is a stream in which the
  blocks after a misread one make up for it.
- A block body ends exactly when its end symbol starts inside the source or the all-zero code means end of block;
  otherwise it runs for ever (`Truncation.BlockEndsIff`). Only dynamic blocks can (`StuckIff`), and a stream that stops
  after a dynamic header does with the code of `Departures.NeverDecodes`. `Deflate.Block` is None, and `InflateInto`
  gives `Endless`, in that case and no other: no bound on the number of symbols enters.
- Quotes in a template do not protect an equality operator: a lone literal means its body exactly when no operator is
  found in it (`TemplateTheorems.LiteralIff`, `LiteralBroken`).
- A class that reaches the registry between a component's construction and its first commit makes the runtime unmount an
  object that was never mounted and mount the next one twice (`HotSwap.EarlyArrival`). The lifecycle is proper exactly
  when that does not happen (`ProperIff`).
- A constructor that throws is tried again on every render when a prop is NaN, because the comparison of props is not
  reflexive; before the first commit that unmounts an object never mounted (`HotSwap.NaNSwapsAgain`). Mounting before any
  change is enough exactly when the constructor does not throw or the props equal themselves (`SteadyIff`).
- The elevation query joins user and conversation with a colon. A reported elevation belongs to the pair asked for
  exactly when the user has no colon (`PasskeyTheorems.ElevationTraces`, `SeparatorMisleads`).
- Revoking a service key has no owner guard: an admin can switch off a key that acts as an owner
  (`TeamRoles.AdminRevokesOwnersKey`). Owners' keys stay exactly when no request revokes one (`OwnersKeysStayIff`).
- A name that every JavaScript object has, such as `constructor`, is accepted as a persona and acts as
  `fleetline.undefined` (`PasskeyTheorems.BuiltInNameApproved`). That name has no colon, so the theorems cover it
  (`PasskeyTheorems.FleetlineTraces`).
- A stored key of another kind than the algorithm's makes the signature check throw, which ends the process
  (`PasskeyTraces.WrongKeyEndsProcess`), as client data that is JSON null does.
- A stored block that ends with its length 65535 is read as 65535 zeros (`Anomalies.CutStored`).
- An order invoiced in the next month is in no month's invoice export (`MonthOrders.MovedNeverExported`).

## Model

| member | source | states |
|---|---|---|
| Inflater.Decoder.ReadBit | e2e/assets/monocart-coverage-app.js:1 | `B`: the buffer stands for position 8·sourceIndex − bitcount of the zero-padded stream; one bit is the stream's bit there and moves it by one, also from an empty buffer with a stale tag |
| Inflater.Decoder.Refill | e2e/assets/monocart-coverage-app.js:1 | whole bytes are added until 24 bits or more are held, never past bit 31, and the position does not move |
| Inflater.Decoder.ReadBits | e2e/assets/monocart-coverage-app.js:1 | `u`: the next n bits of the ideal stream, least significant first, plus the base; the position moves by n (section 3.1.1 of RFC 1951) |
| Inflater.Decoder.ReadSymbol | e2e/assets/monocart-coverage-app.js:1 | `v`: the one symbol whose canonical code stands at the position, consuming its length; undefined, after 16 bits, exactly when none does |
| BitStream.AppendBits | e2e/assets/monocart-coverage-app.js:1 | or-ing bits shifted above those held appends them to the number the stream spells |
| BitStream.PackHasBits | e2e/assets/monocart-coverage-app.js:1 | bits packed into bytes, the first least significant, read back in order |
| Huffman.UniqueSymbol | e2e/assets/monocart-coverage-app.js:1 | canonical codes are prefix-free: at most one symbol stands at a position, whatever the lengths |
| Huffman.CodeFits | e2e/assets/monocart-coverage-app.js:1 | with a Kraft sum of at most one every canonical code fits its length (section 3.2.2 of RFC 1951) |
| Completeness.TotalIffComplete | e2e/assets/monocart-coverage-app.js:1 | every stream decodes to some symbol exactly when the Kraft sum is one |
| Trees.Tree.Build | e2e/assets/monocart-coverage-app.js:1 | `l`: the counting sort leaves each symbol with a code in the slot its canonical code leads to, and the counts by length |
| Trees.SlotsDistinct | e2e/assets/monocart-coverage-app.js:1 | no two symbols share a slot of the counting sort |
| Trees.TreesAgree | e2e/assets/monocart-coverage-app.js:1 | any two trees for the same lengths agree on every slot that is used |
| FixedTables.Tables.constructor | e2e/assets/monocart-coverage-app.js:1 | `D` and `z`: the module's tables are those of section 3.2.5 and its hand-written trees hold the fixed codes |
| FixedTables.FixedLiteralTree | e2e/assets/monocart-coverage-app.js:1 | `z`: the literal/length tree written out by hand is a tree for the fixed lengths of section 3.2.6, as `l` would build it |
| FixedTables.FixedDistanceTree | e2e/assets/monocart-coverage-app.js:1 | `z`: the same for the distance tree |
| FixedTables.FixedCodesFit | e2e/assets/monocart-coverage-app.js:1 | both fixed codes have a Kraft sum within one |
| FixedTables.LengthTable | e2e/assets/monocart-coverage-app.js:1 | `D`: every length symbol's base and extra bits, 29 of each, are those of the table of section 3.2.5 |
| FixedTables.LastLength | e2e/assets/monocart-coverage-app.js:1 | the base `D` computes for the last length symbol is 259, which is why 258 is set by hand |
| FixedTables.DistTable | e2e/assets/monocart-coverage-app.js:1 | `D`: every distance symbol's base and extra bits, 30 of each, are those of the table of section 3.2.5 |
| Inflater.Decoder.ReadTrees | e2e/assets/monocart-coverage-app.js:1 | `C`: reads the ideal header and leaves trees for its two length vectors, whatever the scratch arrays held |
| Inflater.Decoder.ReadRuns | e2e/assets/monocart-coverage-app.js:1 | the run-length loop of `C` computes the ideal unrolling, with overlong runs dropped at the array's end |
| Inflater.Decoder.Copy | e2e/assets/monocart-coverage-app.js:1 | the copy loop of `U` appends bytes read from the growing output, and the buffer keeps exactly what fits |
| Inflater.Decoder.InflateBlock | e2e/assets/monocart-coverage-app.js:1 | `U`: the state and output after a block body are those of the ideal body; false exactly where no number of symbols ends it |
| Inflater.Decoder.StoredBlock | e2e/assets/monocart-coverage-app.js:1 | `K`: gives back whole bytes, checks the complement and copies; all as the ideal stored block, errors included |
| Inflater.InflateInto | e2e/assets/monocart-coverage-app.js:1 | `j`: on every source the result is the ideal decoding, whole if it fits the buffer and otherwise its first bytes, or its data error; `Endless` exactly where the ideal decoding never ends |
| RoundTrip.CopyIsPeriodic | e2e/assets/monocart-coverage-app.js:1 | copying byte by byte from the growing output repeats the last distance bytes, overlap or not |
| RoundTrip.SymbolDecodes | e2e/assets/monocart-coverage-app.js:1 | a stream that starts with a symbol's canonical code decodes to that symbol and consumes exactly its bits |
| RoundTrip.LengthIndex | e2e/assets/monocart-coverage-app.js:1 | every length 3 to 258 is some length symbol's base plus extra bits |
| RoundTrip.DistIndex | e2e/assets/monocart-coverage-app.js:1 | every distance 1 to 32768 is some distance symbol's base plus extra bits |
| RoundTrip.TokensDecode | e2e/assets/monocart-coverage-app.js:1 | block round trip: any valid literals and matches, encoded, decode to their LZ77 expansion and end just after the end code |
| RoundTrip.RunsDecode | e2e/assets/monocart-coverage-app.js:1 | any run-length coding with symbols 16, 17 and 18 is unrolled to the lengths it stands for |
| RoundTrip.CodeLengthsDecode | e2e/assets/monocart-coverage-app.js:1 | the code length code is recovered from its transmission order |
| RoundTrip.HeaderDecodes | e2e/assets/monocart-coverage-app.js:1 | dynamic header round trip: both length vectors come back whole and the position is just after the header (section 3.2.7) |
| StoredRoundTrip.StoredDecodesIffUnaligned | e2e/assets/monocart-coverage-app.js:1 | a stored block is read as section 3.2.4 asks exactly when its header does not end on a byte boundary |
| StoredRoundTrip.AlignedMisreads | e2e/assets/monocart-coverage-app.js:1 | on a boundary it fails unless the byte after the complement repeats the length's low byte, and never writes the right number of bytes |
| StoredRoundTrip.AlignedDeparts | e2e/assets/monocart-coverage-app.js:1 | an aligned stored block that starts otherwise than with the low byte of its length is refused, whatever follows |
| StreamRoundTrip.BodyDecodes | e2e/assets/monocart-coverage-app.js:1 | each kind of block decodes to its output and its end, the aligned stored block excepted |
| StreamRoundTrip.StreamDecodesIff | e2e/assets/monocart-coverage-app.js:1 | any mix of blocks in any source that holds it, from any decoder state: decodes to what the blocks stand for exactly when no stored block is aligned, if the first aligned one is the last block or telling |
| StreamRoundTrip.StreamDecodes | e2e/assets/monocart-coverage-app.js:1 | any mix of blocks in any source that holds it decodes to what the blocks stand for, from any decoder state |
| StreamRoundTrip.InflateInvertsEncode | e2e/assets/monocart-coverage-app.js:1 | packing the blocks into bytes and inflating gives back their output |
| CleanTokens.TokensHeld | e2e/assets/monocart-coverage-app.js:1 | the converse for block bodies: one in which every symbol stands for something, no distance reaches before the start and 258 is spelt with its own symbol is the encoding of the tokens read |
| CleanTokens.TokensRead | e2e/assets/monocart-coverage-app.js:1 | and such an encoding reads as those tokens and no others |
| CleanHeaders.HeaderHeld | e2e/assets/monocart-coverage-app.js:1 | the converse for dynamic headers: three codes within the Kraft bound and runs that come out even are the encoding of the header read |
| CleanHeaders.HeaderRead | e2e/assets/monocart-coverage-app.js:1 | and the encoding of a valid header, run by run, reads as that header |
| CleanStreams.ReadsIffEncodes | e2e/assets/monocart-coverage-app.js:1 | a source reads as these blocks without an anomaly exactly when it holds their encoding, and then inflating gives what they stand for |
| CleanStreams.PackedReadsBack | e2e/assets/monocart-coverage-app.js:1 | packed into bytes, the blocks of every stream with no aligned stored block read back as themselves |
| CleanStreams.OneEncoding | e2e/assets/monocart-coverage-app.js:1 | the format is unambiguous: a source holds the encoding of one sequence of blocks at most |
| ProgramRoundTrip.InflateEncoded | e2e/assets/monocart-coverage-app.js:1 | the program's round trip: on a source that holds an encoding it returns what the blocks stand for, or as much of it as the buffer holds |
| ProgramRoundTrip.InflatePacked | e2e/assets/monocart-coverage-app.js:1 | and on the packed blocks, into a buffer with room, their output |
| ProgramRoundTrip.KnownStream | e2e/assets/monocart-coverage-app.js:1 | the three bytes 4b 04 00 inflate to the letter a |
| Encodable.EveryPairHasHeader | e2e/assets/monocart-coverage-app.js:1 | a pair of length vectors of the allowed sizes has a plain header exactly when both are codes, so the header round trip reaches every pair |
| Encodable.DynamicCarries | e2e/assets/monocart-coverage-app.js:1 | one dynamic block carries any tokens its two codes can write: the bytes exist and inflate to the LZ77 expansion |
| Encodable.EveryOutputHasStream | e2e/assets/monocart-coverage-app.js:1 | every byte sequence is what some stream inflates to |
| Truncation.ExhaustedEndsIff | e2e/assets/monocart-coverage-app.js:1 | past the end of the source a block body ends exactly when the all-zero code is end-of-block |
| Truncation.BlockEndsIff | e2e/assets/monocart-coverage-app.js:1 | a block body ends exactly when its end symbol starts inside the source or the all-zero code is end-of-block |
| Truncation.AlwaysEndsIff | e2e/assets/monocart-coverage-app.js:1 | a pair of codes ends every body, on any source and in any state, exactly when its all-zero code is end-of-block |
| Truncation.EndsWithin | e2e/assets/monocart-coverage-app.js:1 | a body that ends does so within one symbol for each bit of the source and one more; trying more changes nothing |
| Truncation.StuckIff | e2e/assets/monocart-coverage-app.js:1 | only a dynamic block can run for ever, and exactly which |
| Deflate.BlockIs | e2e/assets/monocart-coverage-app.js:1 | any number of symbols that reaches the end symbol gives the same block |
| Departures.HeaderAlone | e2e/assets/monocart-coverage-app.js:1 | a stream that stops after a dynamic header runs for ever exactly when the all-zero code is not end-of-block |
| Departures.NeverDecodes | e2e/assets/monocart-coverage-app.js:1 | a concrete header for which it does |
| Departures.AlignedRefused | e2e/assets/monocart-coverage-app.js:1 | three nine-bit literals and then telling bytes stored: a valid stream, and a data error |
| Departures.TwoRefused | e2e/assets/monocart-coverage-app.js:1 | the same for one concrete stream of four bytes |
| Repaired.MisreadIsRepaired | e2e/assets/monocart-coverage-app.js:1 | a valid stream with an aligned stored block that is misread and still decodes to what it stands for |
| Anomalies.GapWritesNothing | e2e/assets/monocart-coverage-app.js:1 | `U` where no literal code stands, or for a symbol past the tables: a distance is read all the same and nothing is written |
| Anomalies.NoDistanceWritesNothing | e2e/assets/monocart-coverage-app.js:1 | a length without a distance of the table copies nothing |
| Anomalies.SymbolPastTheStandard | e2e/assets/monocart-coverage-app.js:1 | symbol 286 reads as base 323 and six extra bits |
| Anomalies.BeforeTheStart | e2e/assets/monocart-coverage-app.js:1 | a distance before the start copies zeros |
| Anomalies.GapIsZeroLength | e2e/assets/monocart-coverage-app.js:1 | `C` where no code length code stands: one length of zero |
| Anomalies.CutStored | e2e/assets/monocart-coverage-app.js:1 | `K` on a source that ends inside the block's header |
| Templates.ParensWrapWholeLoop | docs/Inbox and drop-in UI design/support.js:233-243 | the loop computes the recursive test of the wrapping parentheses |
| Templates.FindTopLevelEqualityLoop | docs/Inbox and drop-in UI design/support.js:244-258 | the loop finds the first equality at depth zero that is not another's tail and has something on its left |
| Templates.ResolvePathLoop | docs/Inbox and drop-in UI design/support.js:259-290 | the two nested loops compute the path's value, unmatched brackets and bad names included |
| TemplateTheorems.ResolvePrint | docs/Inbox and drop-in UI design/support.js:201-290 | printer/parser: the text of every expression of the grammar, in every layout, resolves to the expression's value |
| TemplateMeanings.EqualityMeans | docs/Inbox and drop-in UI design/support.js:207-221 | the printed `===`, `!==`, `==` and `!=` compare what their sides resolve to, each with its own operator |
| TemplateMeanings.NegationMeans | docs/Inbox and drop-in UI design/support.js:222 | `!` negates the truth of what follows |
| TemplateMeanings.WordsMean | docs/Inbox and drop-in UI design/support.js:223-226 | the four words, with any white space around them |
| TemplateMeanings.NumbersMean | docs/Inbox and drop-in UI design/support.js:227 | a sign or none, digits, and perhaps a point and digits is a number |
| TemplateMeanings.TextsMean | docs/Inbox and drop-in UI design/support.js:228-230 | a quoted text is its body |
| TemplateMeanings.BlankMeansUndefined | docs/Inbox and drop-in UI design/support.js:202-203 | blank text is undefined |
| TemplateMeanings.NameMeans | docs/Inbox and drop-in UI design/support.js:259-262 | a name is looked up in the values; nullish ones have nothing |
| TemplateMeanings.StepMeans | docs/Inbox and drop-in UI design/support.js:263-288 | one more name or index is one more step from what the path resolves to |
| TemplateMeanings.BrokenPathUndefined | docs/Inbox and drop-in UI design/support.js:264-288 | a path followed by another character, a dot without a name or a bracket never closed is undefined |
| TemplateMeanings.LeadingOperators | docs/Inbox and drop-in UI design/support.js:250-252 | an equality with nothing on its left is none |
| TemplateMeanings.NameCharacters | docs/Inbox and drop-in UI design/support.js:199-200 | the characters of names and numbers, by code point |
| TemplateTheorems.QuotableExamples | docs/Inbox and drop-in UI design/support.js:207-228 | the quoted texts of that grammar: brackets that match and marks that make no operator, such as `Hello!` and `a (b)` |
| TemplateTheorems.ResolveSegs | docs/Inbox and drop-in UI design/support.js:259-290 | the same for path segments with nested index expressions |
| TemplateTheorems.WrapIffSafe | docs/Inbox and drop-in UI design/support.js:233-243 | parentheses around text wrap the whole exactly when the text closes none but its own |
| TemplateTheorems.ResolveParens | docs/Inbox and drop-in UI design/support.js:201-206 | outer parentheses around such text never change its result |
| TemplateSyntax.ResolveGaps | docs/Inbox and drop-in UI design/support.js:201-203 | outer whitespace never changes a result |
| TemplateTheorems.LiteralIff | docs/Inbox and drop-in UI design/support.js:207-228 | a lone text literal means its body exactly when no equality is found inside |
| TemplateTheorems.LiteralBroken | docs/Inbox and drop-in UI design/support.js:207-228 | `'a==b'` compares two undefined halves |
| HotSwap.ProperIff | docs/Inbox and drop-in UI design/support.js:763-977 | over every run each logic object is mounted at most once, updated only while mounted and unmounted at most once after it, exactly when no render before the first commit finds another class |
| HotSwap.NothingLeft | docs/Inbox and drop-in UI design/support.js:890-899 | after the unmount exactly the mounted objects have been unmounted |
| HotSwap.SteadyIff | docs/Inbox and drop-in UI design/support.js:847-871 | mounting before any change of registry or props is enough exactly when the constructor does not throw or the props compare equal to themselves |
| HotSwap.NaNSwapsAgain | docs/Inbox and drop-in UI design/support.js:723-730 | a NaN prop and a constructor that throws: the next render, with nothing changed, unmounts an object never mounted |
| HotSwap.EarlyArrival | docs/Inbox and drop-in UI design/support.js:847-882 | a class that arrives too early: one unmount without a mount, then two mounts |
| HotSwap.ClassArrives | docs/Inbox and drop-in UI design/support.js:811-889 | after any run with no early swap, once the error is cleared, a render with its template, any repeats of it and a commit leave the object of the class the registry names mounted and not unmounted, or one standing in for a class remembered to have failed |
| HotSwap.RepeatsSettled | docs/Inbox and drop-in UI design/support.js:847-857 | once settled, however many renders of the same entry and props change no field and make no call |
| HotSwap.CommitCalls | docs/Inbox and drop-in UI design/support.js:864-889 | after any run with no early swap a commit updates the mounted object, mounts a pending one once the template shows with no error, and makes no other call |
| HotSwap.UnmountCalls | docs/Inbox and drop-in UI design/support.js:890-899 | after any such run the unmount unmounts the mounted object and no other |
| HotSwap.RenderMakes | docs/Inbox and drop-in UI design/support.js:847-863 | after any such run a render makes a new object exactly when another class is named that has not just failed at this version for these props; which object, with which calls and memo |
| HotSwap.StartMakes | docs/Inbox and drop-in UI design/support.js:793-830 | the first object and memo |
| HotSwap.Component.ReconcileLogic | docs/Inbox and drop-in UI design/support.js:847-863 | the method changes the fields as the step does: unmount if mounted, make, ask for a mount |
| HotSwap.Component.RenderNow | docs/Inbox and drop-in UI design/support.js:900-977 | cycle and error renders skip the reconciliation; an error below sets the boundary |
| HotSwap.Component.ComponentDidUpdate | docs/Inbox and drop-in UI design/support.js:872-889 | a pending mount waits for a template and no error |
| PasskeyTheorems.ElevationTraces | tools/fake-integrator/server.ts:145-161 | approval chain: a live reported elevation traces to an approval of that pair and, if the person held a passkey then, to an accepted check on a challenge that this person had requested in this conversation within its lifetime; exactly when the user has no colon |
| PasskeyTheorems.FleetlineTraces | tools/fake-integrator/server.ts:30-36 | the same for the names the integrator answers to at its start, those every object has included |
| PasskeyTheorems.PurposeInjective | tools/fake-integrator/server.ts:137-148 | two challenge requests filed under one text are the same request, if the names have no colon |
| PasskeyTheorems.SeparatorMisleads | tools/fake-integrator/server.ts:153-161 | one run in which the approval is reported for another pair |
| PasskeyTheorems.DeliveredTraces | bridge/fake-adapter/server.ts:50-69 | every result delivered, now or later, carries an expiry no later than a live approval's |
| PasskeyTraces.ElevationGranted | tools/fake-integrator/server.ts:145-161 | a live reported elevation was granted by one request of the run, a step-up of that person in that conversation whose lifetime is not over; with a passkey, by an assertion that passed every check under a key that an earlier request of the same person enrolled |
| PasskeyTraces.ApprovedByRequest | tools/fake-integrator/server.ts:149-155 | every approval of every run comes from such a request |
| PasskeyTraces.HeldByRequest | tools/fake-integrator/passkeys.ts:29-58 | every credential held at any point of any run was enrolled, under the same name and key, by an accepted registration of that person |
| PasskeyTraces.GrantElevates | tools/fake-integrator/server.ts:149-161 | the converse: a step-up by someone without a passkey, or with a good assertion, is reported as an elevation until it is over |
| PasskeyTraces.GrantLasts | tools/fake-integrator/server.ts:149-161 | and stays so whatever follows, while no later step-up is filed under the same key |
| PasskeyTraces.HonestFlow | tools/fake-integrator/server.ts:137-156 | enrolling and stepping up, each within a minute of its challenge, from any state in which the person has no such credential, ends elevated |
| PasskeyTraces.CheckReasons | tools/fake-integrator/passkeys.ts:45-77 | which check refuses an assertion, and what becomes of the challenge and the process |
| PasskeyTraces.RegisterReasons | tools/fake-integrator/passkeys.ts:29-42 | which check refuses a registration after its ceremony |
| PasskeyTraces.LiveGoesThrough | bridge/fake-adapter/server.ts:50-60 | with a live elevation every outcome goes through, now or later, deliveries stamped with its end |
| PasskeyTraces.OthersDeclined | bridge/fake-adapter/server.ts:50-60 | without one every outcome is declined |
| PasskeyTraces.DeadStays | tools/fake-integrator/server.ts:124-156 | a process that has ended does nothing more |
| PasskeyTheorems.SingleUse | tools/fake-integrator/passkeys.ts:18-22 | given fresh values no two accepted ceremonies answer one challenge, and registration and step-up never accept each other's |
| PasskeyTheorems.CountersClimb | tools/fake-integrator/passkeys.ts:45-58 | each credential's accepted counters are zeros, then strictly increasing (section 7.2 of Web Authentication Level 2) |
| PasskeyTheorems.RunKeeps | tools/fake-integrator/server.ts:124-156 | every entry of every run is justified by the entries before it |
| PasskeyTheorems.BuiltInNameApproved | tools/fake-integrator/server.ts:128-132 | a step-up under the name `constructor` is approved, for `fleetline.undefined` |
| PasskeyTraces.WrongKeyEndsProcess | tools/fake-integrator/passkeys.ts:52 | an assertion for a stored key the algorithm cannot be used with ends the process |
| Passkeys.Integrator.RunCeremony | tools/fake-integrator/passkeys.ts:60-77 | malformed text leaves the challenge, everything else takes it, JSON null ends the process |
| Passkeys.Integrator.CheckPasskey | tools/fake-integrator/passkeys.ts:45-58 | the method's new maps and verdict are the step's; a signature check that throws ends the process |
| Passkeys.Integrator.RegisterPasskey | tools/fake-integrator/passkeys.ts:29-42 | the same for registration |
| Passkeys.Integrator.Serve | tools/fake-integrator/server.ts:124-156 | the request switch is the step that the theorems run |
| TeamRoles.RunUntouched | backend/internal/api/admin.go:100-141 | whatever non-owners do, also as members they reset, linked, keyed or invited: the owner set and every owner's record and roles stay, no peer access is added, no key changes hands or acts as an owner anew, and no owner comes within reach |
| TeamRoles.OwnersKeysStayIff | backend/internal/api/admin.go:207-213 | revoking is not guarded: over any such run the keys that act as owners all stay active exactly when no request revokes one |
| TeamRoles.AdminRevokesOwnersKey | backend/internal/api/admin.go:207-213 | one tenant in which an admin revokes an owner's key |
| TeamEffects.AssignmentStored | backend/internal/api/admin.go:377-393 | an assignment or rescoping is stored exactly when the actor is an owner, or it involves no owner and no peer access, and it fits |
| TeamEffects.RoleTaken | backend/internal/api/admin.go:418-428 | a role is taken away exactly under the same condition, the last owner's excepted |
| TeamEffects.MemberMade | backend/internal/api/admin.go:430-570 | an invitation or a service account is stored exactly under its condition, with its one role |
| TeamEffects.PasswordSet | backend/internal/api/admin.go:124-141 | a password is stored exactly when the actor is an owner or the target is none, and its bytes are within bounds |
| TeamEffects.IdentityLinked | backend/internal/domain/identity.go:223-244 | an identity is linked or unlinked exactly under its conditions |
| TeamEffects.KeyIssued | backend/internal/api/admin.go:573-590 | a service key is issued exactly under its conditions |
| TeamEffects.KeyRevoked | backend/internal/domain/admin.go:440-442 | anyone's request switches off the named key, whoever owns it |
| TeamEffects.Trimmed | backend/internal/domain/identity.go:224 | trimming takes off the white space around an identity and only that |
| TeamEffects.BytesOf | backend/internal/domain/identity.go:225 | what counts against the limits is bytes |
| TeamRoles.OwnerStays | backend/internal/domain/admin.go:237-250 | a tenant with an owner keeps one, whoever asks |
| TeamRoles.LinksStayUnique | backend/internal/domain/identity.go:223-244 | no run links one identity to two members |
| TeamRoles.Service.GuardOwnerMutation | backend/internal/api/admin.go:100-122 | the guard's early returns decide what the step's guard does |
| TeamRoles.Service.SetExternalSubNow | backend/internal/api/identity.go:111-126 | guarded like a password reset; trims the identity, checks its length in bytes and writes the named record only |
| TeamRoles.Service.RevokeAPIKey | backend/internal/domain/admin.go:440-442 | switches off the named key, whoever it acts as, and nothing else |
| TeamRoles.Service.CreateMember | backend/internal/api/admin.go:430-462 | a member and its one role are stored together or not at all |
| JsonStore.RunRefines | bridge/src/state.ts:4-40 | under any interleaving of sets, deletes and crashes the directory stands for a plain map in which a set takes effect at its rename |
| JsonStore.InterruptedSet | bridge/src/state.ts:23-27 | a set cut off anywhere leaves the old value or the new one and every other key as it was |
| JsonStore.CompletedSet | bridge/src/state.ts:23-27 | a set that is not cut off leaves the new value, every other key as it was, and no temporary file |
| JsonStore.CompletedDelete | bridge/src/state.ts:29-31 | a delete takes the key away and leaves every other; a bad key does nothing |
| JsonStore.KeyCharacters | bridge/src/state.ts:4 | the keys allowed, by code point and length |
| JsonStore.NamesOnDisk | bridge/src/state.ts:33-40 | the names of a key's file and its temporary one |
| JsonStore.KeysExact | bridge/src/state.ts:33-35 | `keys` is exactly the map's domain, and all of it valid keys |
| JsonStore.Store.Set | bridge/src/state.ts:23-27 | the map changes at that key only, and only if the process gets past the rename |
| AsyncInbox.RunKeeps | bridge/spike/spike.ts:145-164 | in every interleaving yielded then queued messages are the pushed ones in order, and a pending wait means an empty open queue |
| AsyncInbox.StepKeeps | bridge/spike/spike.ts:157-163 | one step keeps that, and the consumer returns only when closed and drained |
| AsyncInbox.ClosedDrains | bridge/spike/spike.ts:153-163 | no wakeup is lost: once closed, as many turns as messages and one more end it with everything yielded |
| AsyncInbox.PushedIsYielded | bridge/spike/spike.ts:149-163 | a message pushed before the consumer has returned is yielded, right after the ones before it |
| AsyncInbox.ConsumerWaits | bridge/spike/spike.ts:149-163 | an empty open queue keeps the consumer waiting until the next push or the close, which wakes it |
| WorkerPool.PostedOnce | e2e/support/backdoor.ts:26-36 | in every interleaving, whatever fails, no index is posted twice and none outside the range |
| WorkerPool.CompletesExactly | e2e/support/backdoor.ts:26-36 | on normal completion every index is posted once and the counter is the count plus the workers |
| WorkerPool.EnoughTurnsComplete | e2e/support/backdoor.ts:26-36 | if every post is accepted, one turn more than there are indices for each worker, in any order, completes the pool |
| WorkerPool.RefusalStops | e2e/support/backdoor.ts:26-36 | a refused post stops its worker for good and changes nothing else |
| Vin.ErrorsDetected | bridge/fake-adapter/scenarios.ts:79-88 | a number that passes fails after one change of value, or one swap of unequal neighbours, away from position 9 |
| Vin.SwapMoves | bridge/fake-adapter/scenarios.ts:82-88 | a swap of unequal neighbours changes the digit, wherever they stand |
| Vin.WrittenDigitPasses | bridge/fake-adapter/scenarios.ts:84-88 | writing the computed digit at position 9 gives a number that passes |
| Vin.Values | bridge/fake-adapter/scenarios.ts:79-81 | the value of each character |
| Vin.SumIs | bridge/fake-adapter/scenarios.ts:82-86 | the weight of each position |
| Vin.KnownNumbers | bridge/fake-adapter/scenarios.ts:84-88 | the digits of two well-known numbers |
| MonthOrders.CollectOrders | bridge/fake-adapter/scenarios.ts:92-103 | the loop pushes the 219 rows of the month |
| MonthOrders.MonthConserved | bridge/fake-adapter/scenarios.ts:92-103 | for every month exactly the last seven orders, those of its last day, are invoiced on the first of the next month, with the year rolling over, and the exports share out the orders in number and in cents |
| MonthOrders.MovedNeverExported | bridge/fake-adapter/scenarios.ts:214-236 | an order that moves is in no month's invoice export |
| MonthOrders.KnownRows | bridge/fake-adapter/scenarios.ts:92-103 | two rows in full, one of them a December order invoiced in the next year |
| MonthOrders.MonthTotals | bridge/fake-adapter/scenarios.ts:214-236 | what every month's orders come to, exported and moved |
| MonthOrders.MonthLengths | bridge/fake-adapter/scenarios.ts:94 | the length of every month |

## Left out

- Inflater.Decoder.InflateBlock: returns false at the first symbol past the end of the source that cannot be followed by an end, where the loop it models would go on for ever.
- StreamRoundTrip.StreamDecodesIff: says nothing of streams whose first aligned stored block starts with the low byte of its own length or is empty, and has blocks after it; `Repaired.MisreadIsRepaired` is one that decodes right.
- CleanHeaders.HeaderHeld: takes a run of the last length as allowed with no length before it, where it repeats zero, as the code reads it.
- The worker's loader, its base64 and text decoding, and the compressed payload beside it.
- The tables and scratch arrays are objects handed to the decoder, not module globals; their contents before a call are arbitrary.
- Strings are sequences of characters, not UTF-16 units; every character the searches look at is the same in both.
- `compileAttr` and the split of text into holes: they only hand the text between braces to `resolve`.
- Getters, conversions and exceptions behind property access and loose equality: the operators are a parameter.
- The logic object's own state, which a swap carries over, and React's scheduling: renders and commits are separate steps in any order, but a component's constructor, renders and commits never overlap.
- JSON, base64, hashes, keys and signatures of the passkey protocol: client and authenticator data arrive parsed, an absent or non-text field is a text that matches nothing, and verification is a parameter.
- The token and validator routes of the integrator, and the adapter kit around its handler.
- Who may call the team routes at all, sessions and page listings, queues, subscriptions: every member within reach may make every modelled request.
- Tenant keys that act as no member: no guard reads them.
- Concurrent requests to the team service: each is one step.
- Other writers in the store's directory, file systems that fold case, and writes the operating system loses after a rename.
- A second consumer of the async queue: it would take over the one stored wake-up.
- The text of the exports other than order numbers, dates and cents.
