# A model of the chess-graph runtime, with proofs

The repository turns chess games into an append-only graph of positions. This project models its decision-making
code in Dafny and proves what the code promises. Four groups of code are covered.

**Chess positions.** `Chess` holds the rules as a relation on placements: what each piece attacks, and when a line is
clear. The three attack detectors (`PgnAttack`, `FenAttack`, `EnPassant`) are proved to decide that one relation. On
it stand the move generator and the game loop of the PGN importer (`PgnGenerate`, `PgnBoard`, `PgnGame`), whose
reachable boards satisfy an invariant (`PgnRules.Sound`) that the code relies on and never checks. Around them: which
castling rights a game leaves (`PgnHistory`), what castling means in single steps (`PgnCastling`), what the importer
makes of a black promotion (`PgnPromotion`), and that every legal game can be written and is accepted (`PgnNotation`).
The FEN parser and printer (`FenPlacement`, `Fen`) follow section 16.1 of the PGN Standard; `Material` and `PgnToFen`
say which positions the parser takes: those of sound boards whose men captures and promotions can have left. The two
en-passant identity functions agree (`PositionIdentity`, `PgnEnPassant`), and the tables are bucketed by digest
(`NodeTable`, `EdgeTable`). `FenScan` is the linear search for a placement inside any text.

**The durable store.** `Wal` gives the hash-linked log on values and `WalHeap` on the heap, where an untrusted
canonicalizer may rewrite whatever it reaches while `append` and `replay` run. `Encoding` and `Json` are the two texts
that values are hashed as; `StoreRecovery` and `StoreRuns` cover corruption scans, crash resume and rollback, alone
and in any mixture. `StoreKeyed` is exactly-once append under keys, `Bundle` is backup and restore, `ImportStore` is
the game commit on a disk whose power may fail at every file operation.

**Jobs.** `Queue` and `QueueRuns` are the leased priority queue with restarts, `JobsKeyed`, `JobsHeap` and
`JobsEngine` its exactly-once layer (on values, on the heap with shared containers, and the two together), `JobsLimit`
the token bucket.

**Algorithms with a simple meaning.** `Schema` and `Versioning` are the schema-compatibility verdict and what it means
for clients, `Dag`, `TaskBoard` and `TaskCheck` the task board with Kahn's cycle detection, `VersionStore` the merge of
version histories.

`Text` holds splitting, joining and decimals.

## How to read it

Code that changes things step by step is a method or a class, proved against a predicate or function on values; the
properties are lemmas about those. Runs are datatypes whose constructors are the steps taken, so a lemma about a run
is about every run. Python exceptions are results. A ghost `Placement` stands beside a mailbox of 64 cells in the PGN
code (`Depicts` relates the two). Squares are a file 0..7 and a rank 1..8.

SHA-256 ids are symbolic: an id is the constructor that names what it was derived from, or some foreign text. Where
the hashed text is assembled by the store or the tables (log payloads, fingerprints, tail archives, the scan encoding,
the framed JSON of a torn tail, the position encoding) its injectivity is proved, not assumed. Untrusted callbacks are
either a method that may rewrite every object it can reach (`WalHeap.Canonicalize`, `JobsHeap.Fingerprint`) or a
parameter holding their answer; the canonicalizer's answers are an arbitrary function of the number of the call, so
that success and failure of a whole `append` or `replay` have exact conditions. The validity of a stored node record
is a function parameter (`RecordRule`).

## What the proofs found

- `ingest/pgn.py:134` stores the upper-case promotion letter for both colours, so a black pawn promotes to a white
  piece: `PgnPromotion.BlackMakesWhiteQueen` gives a legal game in which it does. A black promotion that the Laws allow
  is refused exactly when the new man, taken for White's, attacks the black king (`PgnPromotion.PromotionLegality`);
  `PgnPromotion.RefusedPromotion` gives a legal game that comes to it. Every other generated move is judged as with the
  man in its own colour, and the board invariant holds all the same.
- `tools/dag.py:75-80` promises never to crash, yet a task with a usable id and no `dependencies` key passes the
  filter at lines 159-166 and fails at line 167. `TaskCheck.Verify` states exactly when, and
  `TaskCheck.MissingKeyCrashes` gives an input.
- The checks of the allow-lists, and of new routes, in `server/control_plane_versioning.py:268-290` and `:323-328`
  never decide on snapshots that passed the source check (`Versioning.SameMajorMeans`).
- The queue's own transitions, a restart among them, go past its keyed layer. The layer is locked, and stays so whatever
  follows, exactly when one of them has changed the state since the first key was used (`JobsKeyed.LockedExactly`,
  `JobsKeyed.LockedForever`); once a key has been used, a restart does so exactly when its worker holds a
  job (`JobsKeyed.RestartLocks`). `JobsKeyed.RestartAfterClaim` gives such a run.
- A denied request changes no later decision as long as time does not go back behind the refills it has counted; the
  exact condition is `JobsLimit.DenyExactly`, and `JobsLimit.DenialCounts` gives an input on which it fails.
- An edge insert asks the digest oracle about the origin only, the validator that a merge runs about both ends: a
  table's own edge may be refused when it comes back (`EdgeTable.MergeBack`). `EdgeTable.MergeTable` is the exact
  condition.
- A backup whose bundle is not the honest one verifies, but can never be restored
  (`Bundle.BackupVerifies`, `Bundle.BackupThenRestore`).

## Model

| member | source | states |
|---|---|---|
| Chess.SlidersByRays | ingest/pgn.py:102-115 | some slider with a clear line attacks a square exactly when walking outward from the square along some direction meets a fitting slider first |
| PgnAttack.Attacked | ingest/pgn.py:85-124 | the search outward from the target decides the one attack relation, on every board |
| PgnAttack.PawnAttacks | ingest/pgn.py:88-94 | the pawn part finds exactly the attacks by pawns |
| PgnAttack.KnightAttacks | ingest/pgn.py:95-99 | the knight part finds exactly the attacks by knights |
| PgnAttack.SliderAttacks | ingest/pgn.py:100-114 | the eight rays find exactly the attacks by bishops, rooks and queens |
| PgnAttack.KingAttacks | ingest/pgn.py:115-123 | the king part finds exactly the attacks by a king |
| PgnBoard.Board.KingSquare | ingest/pgn.py:81-83 | on a board with a king of that side the search does not fail and finds one |
| PgnBoard.Board.Attacked | ingest/pgn.py:85-124 | the same on the board object |
| PgnBoard.Board.Apply | ingest/pgn.py:126-156 | the edited copy is the position after the move: squares, side, castling rights and target; the board itself is unchanged. What the rights come to over a game is `PgnHistory.CastlingHistory`, the squares `PgnRules.AfterMove` |
| PgnBoard.KeptRights | ingest/pgn.py:143-152 | the removals of flags leave exactly the rights that neither king move nor corner ends |
| PgnHistory.CastlingHistory | ingest/pgn.py:143-152 | over every legal game: K, Q, k or q is held at the end exactly when no move has left e1 or e8 and none has left or entered the corner of that right |
| PgnRules.AfterMove | ingest/pgn.py:126-142 | what every square holds after a tame move, castling and en passant included |
| PgnRules.NoKingCapture | ingest/pgn.py:158-248 | on a sound board no generated move takes a king |
| PgnRules.PseudoKeepsKings | ingest/pgn.py:249-256 | after a generated move each side still has exactly one king, so the king search of the filter never fails |
| PgnRules.LegalKeepsSound | ingest/pgn.py:126-156 | a legal move keeps the whole invariant: one king each, the side not to move not in check, rights with king and rook at home, a sound target, no pawn on a back rank |
| PgnGenerate.KnightMoves | ingest/pgn.py:196-204 | lists exactly the knight moves of the rules, each once |
| PgnGenerate.SliderMoves | ingest/pgn.py:205-222 | lists exactly the sliding moves of the rules, each once |
| PgnGenerate.KingSteps | ingest/pgn.py:223-233 | lists exactly the king steps, each once |
| PgnGenerate.Castles | ingest/pgn.py:234-248 | lists exactly the castling moves the rules allow |
| PgnCastling.CastlingBySteps | ingest/pgn.py:234-256 | castling is legal exactly when the right is held, all squares between king and rook are empty, the king is not in check, its step over the first of them is legal, and it is not in check afterwards |
| PgnGenerate.PawnAdvances | ingest/pgn.py:174-182 | lists exactly the pawn advances, with four moves for a promotion |
| PgnGenerate.PawnCaptures | ingest/pgn.py:183-195 | lists exactly the pawn captures, en passant included |
| PgnGenerate.PseudoMoves | ingest/pgn.py:158-248 | the generator lists exactly the pseudo-legal moves, none twice |
| PgnBoard.Board.LegalUnmarked | ingest/pgn.py:249-256 | the filter keeps exactly the moves that do not leave the own king attacked, none twice |
| PgnBoard.Board.Mark | ingest/pgn.py:257-266 | check and mate are marked exactly when the opponent is in check, and in check without a legal reply |
| PgnBoard.Board.LegalMoves | ingest/pgn.py:158-267 | lists exactly the legal moves with their true check and mate marks, none twice |
| PgnBoard.MarkedComplete | ingest/pgn.py:257-267 | marking loses no legal move and adds none |
| PgnGame.InitialSound | ingest/pgn.py:67-79 | the initial board satisfies the invariant |
| PgnGame.StepSound | ingest/pgn.py:467-475 | a move listed as legal is playable on a sound board and keeps it sound |
| PgnGame.GameSound | ingest/pgn.py:467-477 | every board of every game of legal moves satisfies the invariant |
| PgnGame.KingsAreSafe | ingest/pgn.py:81-83 | on every board reached, no generated move can take a king |
| PgnGame.ArrivalColor | ingest/pgn.py:134 | the arriving man keeps its side if and only if it does not promote or is White's |
| PgnPromotion.PromotionLegality | ingest/pgn.py:126-156 | the code takes for legal what is legal with the promoted man in its own colour, except that a black promotion must besides not attack the black king as White's |
| PgnPromotion.RefusedPromotion | ingest/pgn.py:134 | a legal game from the initial board, on whose last board the code refuses a promotion that the Laws allow |
| PgnPromotion.BlackMakesWhiteQueen | ingest/pgn.py:134 | a legal game from the initial board in which a black pawn becomes a white queen |
| PgnGame.MatchSan | ingest/pgn.py:411-443 | the token's move is chosen exactly when one legal move fits and its claims hold; illegal exactly when none fits |
| PgnGame.Choice | ingest/pgn.py:430-443 | a chosen move is the only one the token names |
| PgnGame.OneGame | ingest/pgn.py:454-480 | the tokens spell at most one game, and it is legal |
| PgnGame.PlayMoves | ingest/pgn.py:472-477 | the loop plays a legal game and stops at the first token that names no move; illegal exactly when no legal move matches it |
| PgnGame.ValidateMoves | ingest/pgn.py:454-480 | a token list is accepted exactly when some legal game spells it |
| PgnNotation.NamesExactly | ingest/pgn.py:411-443 | a token names a move exactly when it is short for the full token of that legal move, and of no other |
| PgnNotation.FullNames | ingest/pgn.py:411-443 | the full token of a legal move, with origin and true marks, names that move |
| PgnNotation.GameWritten | ingest/pgn.py:454-480 | every legal game can be written: some tokens spell it, so the validator accepts it |
| FenAttack.Attack | graph/fen.py:44-83 | the contract's delta tables and ray walks decide the one attack relation |
| FenPlacement.ReadsBack | graph/fen.py:123-160 | reading what the writer wrote gives back the cells, up to the empty run still open |
| FenPlacement.WritesBack | graph/fen.py:271-290 | writing what was read gives back the row text |
| FenPlacement.RowRoundTrip | graph/fen.py:123-160 | a text is a valid row of these cells if and only if it is what the printer writes |
| Fen.PlacementRoundTrip | graph/fen.py:114-160 | a text denotes a placement if and only if it is what the printer writes for it |
| Fen.ParsePlacement | graph/fen.py:114-160 | the nested loops accept exactly the valid placements and fill the board they spell |
| Fen.FenRoundTrip | graph/fen.py:96-299 | a text denotes a grammatical position if and only if it is its printed form |
| Fen.DenotesOne | graph/fen.py:96-270 | a text denotes at most one position |
| Fen.CheckPosition | graph/fen.py:190-270 | the position checks (kings, material, back ranks, rights at home, target, side not to move not in check) hold exactly when they pass; what they let through is `PgnToFen.PositionsExactly` |
| Material.MaterialMeans | graph/fen.py:209-228 | the material check passes exactly the armies that losses and promotions can leave of the initial one |
| PgnToFen.PositionsExactly | graph/fen.py:190-270 | the positions accepted are exactly those of sound boards of the importer whose men losses and promotions can have left, with a clock of zero behind a double step |
| Fen.ParseFen | graph/fen.py:96-270 | the parser accepts exactly the texts that denote a possible position, and tells malformed from impossible |
| Fen.EmitFen | graph/fen.py:271-299 | the printer writes the six fields of the position |
| Fen.EmitOfParse | graph/fen.py:96-299 | printing what was parsed gives back every accepted text |
| Fen.ParseOfEmit | graph/fen.py:96-299 | parsing what was printed gives back every accepted position |
| PgnToFen.GameCareer | ingest/pgn.py:126-156 | over every legal game without a black promotion, the men of each side are what losses and promotions have left |
| PgnToFen.GamePossible | graph/fen.py:96-270 | what such a game leads to is a position that the printer writes and the parser reads back |
| PgnToFen.StartText | graph/fen.py:96-160 | the standard text of the initial position is read as the board where games start |
| EnPassant.LineClear | graph/en_passant.py:124-132 | the stepping loop answers whether the squares strictly between are empty |
| EnPassant.AttackedFrom | graph/en_passant.py:135-157 | the piece-by-piece test decides the one attack relation |
| EnPassant.ReadState | graph/en_passant.py:77-121 | the state is refused exactly when it is malformed |
| EnPassant.Capture | graph/en_passant.py:160-188 | the capture goes through exactly when it takes the pawn that just passed and leaves the own king unattacked; each of the four refusals has its exact condition |
| EnPassant.Apply | graph/en_passant.py:191-212 | a move goes through exactly when it is allowed, its result state is the given one, and each refusal comes exactly when its condition holds |
| EnPassant.TargetLifetime | graph/en_passant.py:191-212 | a target exists exactly after a double advance, on the square passed over, and lives one move |
| EnPassant.IdentityValue | graph/en_passant.py:215-232 | the identity value is the target exactly when some pawn may take it legally |
| PgnEnPassant.CapturesAgree | graph/en_passant.py:160-188 | on every sound board the runtime allows an en-passant capture exactly when the move generator does |
| PgnEnPassant.TargetsAgree | ingest/pgn.py:153-155 | importer and runtime set the same target after every move |
| PgnEnPassant.StatesAgree | graph/en_passant.py:191-212 | board, target and side to move after every legal move, castling and promotion aside, are the same on both sides |
| PositionIdentity.EpIdentityOf | graph/position_digest.py:63-98 | the digest's en-passant field is the target exactly when a legal capture exists |
| PositionIdentity.IdentitiesAgree | graph/position_digest.py:63-98 | on every position the parser accepts, the two en-passant identity functions agree |
| PositionIdentity.SnapshotFixedPoint | graph/transposition_node.py:74-97 | a snapshot always parses, is its own snapshot and keeps the identity |
| PositionIdentity.IdentityIsNormal | graph/transposition_node.py:74-89 | identities are equal exactly when the normalised positions are |
| PositionIdentity.EncodeInjective | graph/position_digest.py:101-115 | the hashed text separates identities |
| NodeTable.SnapshotIdentity | graph/transposition_node.py:91-97 | a snapshot text spells the identity it was made from |
| NodeTable.ValidateNode | graph/transposition_node.py:146-174 | a stored record passes exactly when it is the record of its own snapshot |
| NodeTable.Table.Insert | graph/transposition_node.py:193-202 | for every oracle that depends on the identity only, even a constant one, the table holds one node for each identity, inserted or found |
| NodeTable.Table.Merge | graph/transposition_node.py:204-232 | all or nothing: goes through exactly when every record passes, and adds just their identities |
| NodeTable.SourceIdsAre | graph/transposition_node.py:204-232 | what a merge adds is what its records spell, whatever their order |
| NodeTable.TableSource | graph/transposition_node.py:234-235 | the records of a valid table all pass the validator of another, and spell its identities |
| NodeTable.MergeTable | graph/transposition_node.py:204-232 | merging a table is the union of identities and never fails |
| EdgeTable.Table.Insert | graph/route_edge.py:180-192 | one target for each origin identity and move; the conflict comes exactly when another target is there |
| EdgeTable.ValidateEdge | graph/route_edge.py:128-154 | a stored edge passes exactly when its move is well-formed and both ends are node records |
| EdgeTable.MoveOkMeans | graph/route_edge.py:66-86 | a move is well-formed exactly when it is written from one square of the board to another, with or without the letter of a promotion |
| EdgeTable.Table.Merge | graph/route_edge.py:194-217 | all or nothing: goes through exactly when all records pass in turn without a conflict, and then adds their routes |
| EdgeTable.FitsWhenOneTarget | graph/route_edge.py:194-217 | records that pass and agree on one target function are merged, in any order |
| EdgeTable.FittingHasOneTarget | graph/route_edge.py:194-217 | and only those are |
| EdgeTable.Table.Records | graph/route_edge.py:219-220 | the records listed are those of the routes, no more and no fewer |
| EdgeTable.MergeIsUnion | graph/route_edge.py:194-217 | the records of a table all fit exactly when the oracle answers for both ends of each and the two tables agree where they meet; the outcome is then the union of the routes |
| EdgeTable.MergeTable | graph/route_edge.py:194-217 | merging a table is the union of routes exactly when the tables are mergeable, and nothing otherwise |
| EdgeTable.MergeBack | graph/route_edge.py:208-214 | a table's own edge comes back exactly when the oracle answers for its target too |
| FenScan.RankOk | server/control_plane_errors.py:63-74 | the rank test accepts exactly the rows of the FEN grammar |
| FenScan.Tables | server/control_plane_errors.py:77-90 | the prefix table counts valid middle segments, and the end tables tell which segments end or begin in a row |
| FenScan.HasFenPlacement | server/control_plane_errors.py:77-90 | the linear scan answers true exactly when some substring of the text is a valid placement |
| FenScan.WindowsArePlacements | server/control_plane_errors.py:77-90 | eight fitting neighbours among the segments exist exactly when a substring is a valid placement |
| Wal.PrefixAccepted | store/wal.py:152-156 | log acceptance is prefix-monotone |
| Wal.AppendAccepted | store/wal.py:231-282 | a valid request appended to an accepted log gives an accepted log |
| Wal.AcceptedIsAppended | store/wal.py:284-306 | every accepted log is built by appending its own requests |
| Wal.CanonicalInjective | store/wal.py:63-66 | the canonical payload text decides identity and record |
| Wal.HeadDecidesLog | store/wal.py:218-229 | accepted logs with equal heads are equal |
| Wal.FoldMeans | store/wal.py:295-301 | for every log: the state holds an identity exactly when the last entry about it is a put, and then with that entry's record |
| WalHeap.ValidateEntry | store/wal.py:126-149 | the checks of an entry, in their order, give the first fault |
| WalHeap.ValidateLog | store/wal.py:152-156 | a log passes exactly when its dicts spell a linked log, which is frozen |
| WalHeap.Rederive | store/wal.py:218-229 | all ids are derived anew exactly when every answer is a text that gives the stored id; else the first bad answer decides the fault |
| WalHeap.Snapshot | store/wal.py:159-170 | every entry, payload and record dict is saved with its contents |
| WalHeap.Restore | store/wal.py:173-183 | the list and every saved dict hold what was saved, however the dicts are shared |
| WalHeap.Guarded | store/wal.py:231-282 | whatever the canonicalizer rewrites, all that the log or the request held is back |
| WalHeap.Append | store/wal.py:231-282 | succeeds exactly when request and log are valid, all entries re-derive and the last call is answered; on every exit log, entries, payloads, records and request are as found, plus exactly one fresh entry on success |
| WalHeap.Replay | store/wal.py:284-306 | succeeds exactly when the log is linked and re-derives; everything is left as found, and the state is the fold of the frozen operations, which `Wal.FoldMeans` describes |
| WalHeap.HonestReplay | store/wal.py:218-229 | behind an honest canonicalizer, replay takes exactly the accepted logs |
| WalHeap.HonestAppend | store/wal.py:231-282 | and append adds the entry that the accepted log calls for |
| Encoding.PrefixFree | store/corruption.py:58-107 | equal encodings followed by any rests are encodings of equal values, with equal rests |
| Encoding.EncodeValue | store/corruption.py:58-107 | the appending encoder writes the encoding of exactly the values in the domain, within depth and width |
| Json.CanonSplit | store/crash_resume.py:122-123 | a canonical JSON text ends where its value does: equal texts before any ends mean equal values and equal ends |
| Json.CanonInjective | store/crash_resume.py:122-123 | the canonical JSON text names its value |
| Encoding.FramedInjective | store/rollback.py:47-60 | length-framed lists of texts are equal only if the texts are |
| StoreRecovery.PrefixReplays | store/corruption.py:172-176 | a prefix of a log that replays, replays |
| StoreRecovery.VerifiedPrefix | store/corruption.py:172-186 | the binary search returns the length of the longest prefix that replays |
| StoreRecovery.ValidPrefixLength | store/crash_resume.py:162-178 | the downward scan, capped by the admission walk, returns it too |
| StoreRecovery.LongestUnique | store/crash_resume.py:162-178 | so the two scans agree |
| StoreRecovery.CapIsHarmless | store/crash_resume.py:162-172 | nothing that replays reaches past an entry the admission walk refuses |
| StoreRecovery.DomainAdmissible | store/crash_resume.py:90-119 | what the scan domain holds, the admission walk of resume admits |
| StoreRecovery.QuarantineInjective | store/corruption.py:117-122 | the quarantine text of a scan names its suffix |
| StoreRecovery.QuarantineTailInjective | store/crash_resume.py:126-134 | the framed JSON of a torn tail names the tail |
| StoreRecovery.ArchiveInjective | store/rollback.py:47-60 | equal archive texts mean equal tails |
| StoreRecovery.TokenNamesTail | store/rollback.py:103-145 | so over all logs that replay, equal archive tokens mean that the same entries were cut off |
| StoreRuns.Store.Append | store/wal.py:231-282 | validates, replays entry by entry and builds the next entry: appends exactly valid requests on logs that replay |
| StoreRuns.ReplayLog | store/wal.py:218-229 | the linked loop accepts exactly the logs that replay, and ends at their head |
| StoreRuns.Store.Rollback | store/rollback.py:103-145 | truncates a log that replays to the target and binds the token to the tail; any refusal changes nothing |
| StoreRuns.Store.Scan | store/corruption.py:213-249 | goes through exactly on encodable logs that replay whole, or whose loss is allowed under the honest token; keeps exactly the longest accepted prefix; each refusal has its exact condition and changes nothing |
| StoreRuns.Store.Resume | store/crash_resume.py:207-264 | goes through exactly when the checkpoint lies in the longest accepted prefix, the tail is admissible and the token is the honest one; keeps exactly that prefix and answers with its head and state (`Wal.FoldMeans`); each refusal has its exact condition and changes nothing |
| StoreRuns.ResumeAgain | store/crash_resume.py:207-264 | after a resume that went through, a second one with the honest token of no tail goes through, discards nothing and answers with the same head and state |
| StoreRuns.ScanAgain | store/corruption.py:213-249 | after a scan that went through, a second one is clean, at the same head and length |
| StoreRuns.UndamagedReplays | store/wal.py:284-306 | without outside damage every log of every run replays |
| StoreRuns.AcknowledgedSurvive | store/crash_resume.py:207-264 | over any mix of append, rollback, damage, scan and resume, what was durable stays as long as damage and rollback spare it |
| StoreRuns.CheckpointHonoured | store/crash_resume.py:227-240 | then a resume at that checkpoint never fails for lack of entries, and drops none of them |
| StoreRuns.ReappendRebuilds | store/rollback.py:103-145 | re-appending the operations rolled back rebuilds the same entries |
| StoreKeyed.FpTextInjective | store/idempotency.py:54-64 | the framed fingerprint text decides the request |
| StoreKeyed.ValidateLedger | store/idempotency.py:173-204 | the loop with its running variables accepts exactly the valid ledgers |
| StoreKeyed.LedgerExactly | store/idempotency.py:173-204 | log and ledger pass exactly when some mixture of keyed requests and plain appends builds them |
| StoreKeyed.KeyedStore.Apply | store/idempotency.py:206-270 | the outcome, log and ledger of a keyed request, for every answer of the fingerprinter |
| StoreKeyed.StepMeans | store/idempotency.py:206-270 | on a tracked ledger the keyed step is the step of a store that just remembers requests by key |
| StoreKeyed.ExactlyOnce | store/idempotency.py:206-270 | over every run from empty: log and ledger stay valid, each reply is what the keys used so far call for, and the log is built from the first uses alone |
| StoreKeyed.RetrySafe | store/idempotency.py:242-249 | however much later, a key used again gives the first receipt or a conflict, and changes nothing |
| Bundle.BundleRoundTrip | store/restore.py:55-69 | parsing inverts serialising on every state a log can rebuild |
| Bundle.SerializeInjective | store/backup.py:57-65 | the bundle decides the state |
| Bundle.ParseBundle | store/restore.py:55-69 | the line and field loops compute the parse, or the index error of a missing line |
| Bundle.BackupVerifies | store/backup.py:108-161 | every receipt made of an accepted log passes its verification |
| Bundle.Restore | store/restore.py:115-147 | succeeds exactly when the receipt verifies and the parser's answer is a valid state with that state id and that bundle |
| Bundle.BackupThenRestore | store/restore.py:115-147 | whatever serializer and parser answer, a successful restore returns the replayed state; with the honest parser it succeeds exactly on the honest bundle |
| ImportStore.Store.CommitGame | ingest/import_pgn.py:278-285 | at every crash point the old index and its records stand, and after the last rename the new ones |
| ImportStore.Store.ValidateIndex | ingest/import_pgn.py:292-348 | the manifest is accepted exactly when ids are unique and every record named is there and consistent |
| ImportStore.Store.Recover | ingest/import_pgn.py:454-475 | refuses a contradiction untouched; else keeps the committed index and records at every moment, and in the end nothing else is left |
| ImportStore.Store.ImportGame | ingest/import_pgn.py:230-263 | a game is a no-op, a replacement in place or an addition, all in one commit |
| ImportStore.Store.RunImport | ingest/import_pgn.py:201-263 | the store holds what importing some number of its first games gives; it stops short of the first rejected game only when the power budget, which every file operation draws on, is spent; at its end each counter is the number of games that were new, changed or there already |
| ImportStore.ImportVersion | ingest/import_pgn.py:230-263 | after an import each id has the last version that came, or its old one |
| ImportStore.RerunConverges | ingest/import_pgn.py:201-263 | importing the whole input after any part of it ends where one import ends |
| ImportStore.CrashAndRerun | ingest/import_pgn.py:159-275 | an import cut off any number of times, anywhere, and run again with power enough ends, finished or at the first rejected game, in the index of one undisturbed import of the games before it |
| Queue.CheckState | server/jobs_queue.py:173-191 | the loop with its running bounds accepts exactly the valid states |
| QueueRuns.JobExactly | server/jobs_queue.py:173-191 | the check lets through exactly the jobs, in status, attempts, owner and expiry, that runs make |
| Queue.SortedClaimable | server/jobs_queue.py:285-292 | the claimable jobs in order of priority and sequence |
| Queue.ClaimLoop | server/jobs_queue.py:285-305 | leases the least claimable job with attempts left, and kills exactly the spent claimable ones before it |
| Queue.QueueStore.Apply | server/jobs_queue.py:242-257 | every operation makes its transition or changes nothing |
| Queue.QueueStore.ApplyRestart | server/jobs_restart.py:211-245 | a restart releases exactly the jobs the worker still holds |
| QueueRuns.StepDeterministic | server/jobs_queue.py:242-325 | a transition has one outcome |
| QueueRuns.StepKeepsOk | server/jobs_queue.py:173-191 | every transition keeps the state check true |
| QueueRuns.RunOk | server/jobs_queue.py:242-257 | in every run, with arbitrary clocks and restarts, the state passes its check |
| QueueRuns.LeasesAndAcks | server/jobs_queue.py:285-325 | a job's attempts are the leases granted on it, at most five; it is done exactly when one ack succeeded, and no second one can |
| QueueRuns.OpenLeaseIsHeld | server/jobs_queue.py:285-325 | the last lease not given back is the one the state holds |
| QueueRuns.HolderIsOwner | server/jobs_queue.py:285-325 | the worker a job was last leased to, and has not given it back, is the owner in the state |
| QueueRuns.OnlyHolderSettles | server/jobs_queue.py:307-325 | over every run an ack or nack on a known job goes through exactly when its worker was the last to be granted the job, has not given it back, and is in time |
| QueueRuns.RestartReleases | server/jobs_restart.py:211-245 | a restart gives back exactly the jobs its worker holds in time, by the history of the run |
| QueueRuns.EnqueueOnce | server/jobs_queue.py:259-282 | over every run a key enqueued again gives the job back if priority and payload are those of its first enqueue, and is refused otherwise; a new key is taken as long as there is room |
| QueueRuns.JobIsFirst | server/jobs_queue.py:259-282 | a job is there once its key was enqueued, as that enqueue gave it, and jobs are numbered in the order of enqueueing |
| QueueRuns.ClaimTakesFirst | server/jobs_queue.py:285-305 | over every run a claim grants the soonest waiting job that had fewer than five leases, and nothing only if there is none |
| QueueRuns.ClaimKills | server/jobs_queue.py:285-305 | in a claim die exactly the waiting jobs that had all five leases and come sooner than the one granted |
| QueueRuns.NoEarlyRelease | server/jobs_queue.py:285-305 | a job is leased again only at or after its expiry, unless it was released first |
| QueueRuns.TerminalForever | server/jobs_queue.py:307-325 | once done or dead, a job never changes |
| QueueRuns.SecondRestartIdle | server/jobs_restart.py:211-245 | a second restart of a worker at the same time releases nothing |
| JobsKeyed.ValidateLedger | server/jobs_idempotency.py:231-272 | the loop accepts exactly the chained ledgers that end in the live state |
| JobsKeyed.LedgerMeans | server/jobs_idempotency.py:231-272 | a ledger passes exactly when every receipt names itself and its place, no key stands twice, each begins at the state where the one before ended, and the last ends in the live state |
| JobsKeyed.KeyedQueue.Apply | server/jobs_idempotency.py:274-340 | the outcome, state and ledger of a keyed request, for every answer of the fingerprinter; the transition is the queue's own |
| JobsKeyed.ExactlyOnce | server/jobs_idempotency.py:274-340 | over every run from empty: state and ledger stay valid, and each reply is what the keys used so far call for |
| JobsKeyed.FirstUsesBuild | server/jobs_idempotency.py:306-340 | the live queue is a run of the queue's own transitions over the first uses alone |
| JobsKeyed.RetrySafe | server/jobs_idempotency.py:304-311 | a key used again gives the first receipt or a conflict, and changes nothing |
| JobsKeyed.StepGoesAhead | server/jobs_queue.py:242-325 | a transition that changes the state leads strictly ahead in an order on states, so none leads back |
| JobsKeyed.LockedExactly | server/jobs_idempotency.py:271-272 | over every mixture of keyed requests and transitions past them: the ledger is refused if and only if one of the latter has changed the state since a key was used |
| JobsKeyed.RestartLocks | server/jobs_idempotency.py:271-272 | a restart locks a working keyed layer if and only if a key has been used and the worker holds a job |
| JobsKeyed.LockedForever | server/jobs_idempotency.py:271-272 | from there on, over any mixture of keyed requests, transitions past the layer and restarts, every keyed request fails and changes nothing |
| JobsKeyed.RestartAfterClaim | server/jobs_idempotency.py:271-272 | a run of an enqueue and a claim under keys and a restart, after which the layer is locked |
| JobsHeap.TakeSnapshot | server/jobs_idempotency.py:137-145 | the snapshot keeps the identity of every container and says what it held |
| JobsHeap.ReachedOccurs | server/jobs_idempotency.py:137-145 | all that can be reached is in the snapshot |
| JobsHeap.Restore | server/jobs_idempotency.py:148-158 | every container of the snapshot holds what it held, however often it is shared, and every other one is left as it is or put back too |
| JobsHeap.ContainerIds | server/jobs_idempotency.py:115-134 | the walk finds exactly the containers that can be reached |
| JobsHeap.Guarded | server/jobs_idempotency.py:297-333 | whatever the fingerprinter rewrites, all that state, ledger and request held is back |
| JobsHeap.Apply | server/jobs_idempotency.py:274-340 | rejected exactly when request and store share a container, the fingerprinter gives no text or the decision refuses; then all is as found; on success only state and ledger change, the request never |
| JobsEngine.Apply | server/jobs_idempotency.py:274-340 | the whole call: on disjoint inputs the reply is that of the keyed layer on the frozen copies, for every answer; state and ledger become its state and ledger exactly when a transition is made, and all else is as found |
| JobsLimit.RecordsChain | server/jobs_limit.py:105-135 | every record produced passes the check of a previous record |
| JobsLimit.RefillTwice | server/jobs_limit.py:148-195 | refilling in two steps or in one comes to the same |
| JobsLimit.DenialsChangeNothing | server/jobs_limit.py:148-195 | leaving out any number of denials from a row of requests, each linked to the last record produced, leaves every other decision as it was |
| JobsLimit.DenyExactly | server/jobs_limit.py:148-195 | the next request is decided alike on a denial and on the record before it, if and only if it does not come in time between the two |
| JobsLimit.DenialCounts | server/jobs_limit.py:148-195 | an input on which a denial makes a request that comes between refused |
| JobsLimit.RetryIsExact | server/jobs_limit.py:148-195 | after a deny the same request is admitted exactly from now + retry_after on |
| JobsLimit.SpendingBound | server/jobs_limit.py:138-195 | over any chain the admitted cost is at most the capacity plus one token per whole refill interval elapsed |
| JobsLimit.WindowBound | server/jobs_limit.py:148-195 | from any link of a chain to any later one, the admitted cost is at most the capacity plus one token per whole refill interval between the two |
| JobsLimit.RefillTicks | server/jobs_limit.py:163-172 | counting whole refills at once is what ticking from millisecond to millisecond comes to, a full bucket waiting |
| JobsLimit.TickingBucket | server/jobs_limit.py:148-195 | along a chain a request is admitted exactly when a bucket that ticks holds its cost, and only admitted ones take from it |
| JobsLimit.PreviousExactly | server/jobs_limit.py:105-135 | the check of a previous record lets through exactly what some request produces, and besides only denials at the end of the clock |
| Schema.Equal | server/control_plane_versioning.py:98-121 | the work-list comparison ends, and answers true exactly on equal values |
| Schema.ValidPayload | server/control_plane_client.py:156-182 | the recursive check decides whether a payload conforms |
| Schema.ProjectPayload | server/control_plane_client.py:191-205 | the rebuilt dict is the projection |
| Schema.AdditiveReflexive | server/control_plane_versioning.py:253-265 | a schema is additive over itself |
| Schema.AdditiveTransitive | server/control_plane_versioning.py:253-265 | additive changes compose, at any depth |
| Schema.RequestSound | server/control_plane_versioning.py:253-265 | after an additive change every request body valid before is valid, at any depth |
| Schema.ResponseSound | server/control_plane_versioning.py:253-265 | and every response valid after it was valid before |
| Schema.ProjectThrough | server/control_plane_client.py:191-205 | an old reader gets the same from a response as from what a new reader keeps of it |
| Schema.ProjectCloses | server/control_plane_client.py:191-205 | what is left of a conforming payload conforms and holds no undeclared key |
| Schema.ProjectOfClosed | server/control_plane_client.py:156-205 | a payload that passes the closed check loses nothing |
| Schema.Kinds | server/control_plane_client.py:105-112 | which values each type takes: one type for each, but that integers are numbers too |
| Schema.AdditiveExactly | server/control_plane_versioning.py:253-265 | the additive changes of names, types and required fields are exactly those after which all that was sent is still taken and all that is answered was readable before |
| Versioning.SameMajorMeans | server/control_plane_versioning.py:268-328 | on well-formed snapshots the comparison says yes exactly when nothing declared goes or changes but for additions |
| Versioning.CompareMeans | server/control_plane_versioning.py:331-343 | the verdict is yes exactly for a newer major, or a later minor under the same base path that is compatible |
| Versioning.CompareReflexive | server/control_plane_versioning.py:331-343 | a snapshot is compatible with itself |
| Versioning.CompareTransitive | server/control_plane_versioning.py:331-343 | yes twice along a line of releases is yes at once |
| Versioning.CompareSound | server/control_plane_versioning.py:331-343 | yes within a major means every operation still serves every old client, whatever the payloads |
| Versioning.CompareExactly | server/control_plane_versioning.py:331-343 | within a major version the verdict is yes exactly when declarations and notes stay, nothing goes, and every operation serves old clients both ways, whatever the payloads |
| Dag.OrderedAcyclic | tools/dag.py:153-184 | a topological order of all nodes leaves no room for a cycle |
| Dag.StuckHasCycle | tools/dag.py:153-184 | nodes that all depend on one another contain a cycle |
| Dag.Kahn | tools/dag.py:167-184 | the loop takes off all nodes exactly when the dependencies have no cycle |
| TaskCheck.CycleCheck | tools/dag.py:153-184 | a cycle is reported exactly when the well-formed tasks have one; the key error comes exactly for one without its dependencies key |
| TaskCheck.CheckIds | tools/dag.py:93-113 | ids are found faulty exactly when one is missing, untrimmed or used twice |
| TaskBoard.TrimmedMeans | tools/dag.py:93-113 | an id counts as trimmed when there is one and stripping leaves it as it is |
| TaskCheck.Verify | tools/dag.py:75-184 | no problem is found exactly on sound boards of the right version |
| TaskCheck.MissingKeyCrashes | tools/dag.py:159-167 | an input on which the check crashes although it promises not to |
| TaskBoard.SomeReady | tools/dag.py:187-194 | while a task of a sound board is not done, some open task has all its dependencies done |
| TaskBoard.CanFinish | tools/dag.py:259-274 | `complete` alone can finish every sound board |
| TaskBoard.StepKeeps | tools/dag.py:229-274 | a command on a sound board never crashes, keeps it sound, and keeps the done set closed under dependencies |
| TaskBoard.RunKeeps | tools/dag.py:229-274 | the same over every run of commands |
| TaskBoard.TaskBecomes | tools/dag.py:229-274 | over every run each task is what the commands on it that went through have made of it: status, claimant, hash and evidence |
| TaskBoard.PassesInTurn | tools/dag.py:229-274 | a command goes through exactly when its turn has come by the commands before it and all dependencies are finished; it crashes exactly when a dependency is no task |
| TaskBoard.Board.Index | tools/dag.py:66-72 | the index exists exactly when no id stands twice |
| TaskBoard.Board.Claimable | tools/dag.py:187-194 | lists exactly the tasks that `claim` would accept |
| TaskBoard.Board.Perform | tools/dag.py:229-274 | a command changes one task when it passes, and nothing when it is refused or crashes |
| VersionStore.RootBelow | graph/version_store.py:105-137 | from every stored version a line of stored parents leads down to the one root |
| VersionStore.InsertKeepsSound | graph/version_store.py:105-137 | an insert keeps one root, stored parents and monotone times |
| VersionStore.SomeReady | graph/version_store.py:152-160 | some pending record always has its parents staged, so the merge ends |
| VersionStore.Store.Insert | graph/version_store.py:105-137 | inserts, finds or refuses as the ids, the root and the parents say; an unknown parent and a younger one are told apart |
| VersionStore.InsertExactly | graph/version_store.py:105-137 | a record is stored exactly when it is well-formed and the store with it, nothing replaced, is again a store |
| VersionStore.Store.Merge | graph/version_store.py:142-163 | all or nothing: succeeds exactly when shared ids carry equal records and the roots agree or one store is empty, and is then the union |
| VersionStore.MergedCompatible | graph/version_store.py:142-163 | whatever was staged to the end was compatible |
| VersionStore.CompatibleMeans | graph/version_store.py:142-163 | stores are compatible exactly when they agree where they meet and their union is again a store |
| VersionStore.MergeCommutes | graph/version_store.py:142-163 | merging either way round succeeds alike, with the same records and root |

## Left out

- Text of games: tag lines, comments and the SAN grammar (`ingest/pgn.py:274-409`); a SAN token is a datatype, in which castling carries no check mark, as in the parser.
- Reading of contracts from YAML: the constants they pin are fixed in the model.
- SHA-256, digest grammars and hex: ids are symbolic, with a flag for foreign text of the right shape.
- Hostile Python typing (subclasses, raising methods, lone surrogates, integer-string limits): values are exact.
- JSON parsing, and the canonical text of a job's payload, which is opaque. Of a finite float, the model knows that its text holds digits, signs, `e` and a point and that distinct floats have distinct texts.
- Queue.CheckState: the walk over the contents of a payload is not modelled, since a payload is its canonical text.
- Encoding.EncodeValue: values are trees, so the refusal of a container met twice is not modelled. The same holds for the admission walk of resume.
- StoreRuns.Store.Resume: requires a log of fewer than 10^4000 entries, the length at which the admission walk would refuse a sequence number.
- StoreRuns.Store.Rollback: takes the archiver's answer as a parameter; what a callback may do to the heap is modelled for append, replay and the keyed queue only. The same holds for scan and resume.
- JobsHeap.Apply: takes the decision of the keyed layer as a parameter; `JobsEngine.Apply` fills it in.
- JobsEngine.Apply: takes what the frozen copies spell, and how a state and a receipt are spelled again, as parameters.
- Versioning.Compare: the order of the three error fields and the raw YAML shape of a snapshot (`_safe_tree`, key sets) are not modelled; every other declaration of the contract is one opaque value.
- TaskCheck.Verify: problems are kinds without their message texts, the required text fields of a task are one flag, and the white space stripped from an id is ASCII's.
- ImportStore.Store.RunImport: telemetry, the summary file and the semantic re-validation of a stored record; the latter is a function parameter. Digest prefixes in file names are taken as separating contents.
- EnPassant.ReadState: a target text outside the square grammar is a square off the board.
- VersionStore.Store.Insert: a parent list is the set it is sorted from, and a timestamp is the instant it spells; when one parent is unknown and another younger, which is met first is left open.
- Control-plane transport and logging, the mocks, `graph/diff.py`, `graph/conflict.py`, `server/jobs_retry.py`, `server/jobs_progress.py`, `server/jobs_cancel.py`, `server/jobs_dead_letter.py`, `backtest/`: they would add only easy members.
