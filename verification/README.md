# Verification of an academy's back end

A Dafny model of the parts of the repository whose correctness depends on whole loops and
whole runs, with proofs of what they promise:

- **PDF placeholder removal** (`app/pdftools`). `TextSemantics` and `PathsProof` are small
  interpreters for the text, path and graphics-state operators of ISO 32000-1:2008 (sections
  8.3.4, 8.4, 8.5, 9.3 and 9.4). `Strip` rewrites content streams and `StripProof` shows what
  the rewritten stream paints; `Paths`, `PageErase`, `Redrawn` and `Curves` do the same for
  erasing outlines, through nested and possibly cyclic Form XObjects, drawn once or often;
  `Glyphs` finds the placeholders, and `PageStream` joins them: one stream of text and graphics,
  stripped and then erased.
- **Money** (`app/services/payments`). `Books` is the state of invoices, payments,
  installments and ledger rows with one function per operation, `BooksProof`, `Confluence`,
  `Reconcile` and `Balance` prove its invariants over runs, `Plans` is the default plan and
  `Database` runs the operations on tables changed in place.
- **Refunds and tax receipts** (`app/services/refunds.py`, `app/services/ebarimt`). `Refunds`
  splits a refund into its commits, `RefundsProof` proves safety after any prefix of them and
  convergence of retries, `RefundDesk` is the code that runs them.
- **Seat holds and checkout** (`app/services/enrolment`): `Seats`, with every interleaving of
  readings, inserts, sweeps, sales and refunds; `Checkout`, the invoices of one booking whose
  requests come one after another, and `CheckoutRaces`, with requests that overlap.
- **Timetable and double bookings** (`app/services/attendance/generate.py`,
  `app/services/cohorts.py`): `Timetable` and `Cohorts`.
- **Learning order** (`app/services/learning`): `Learning`.
- **Refresh tokens** (`app/auth/refresh.py`): `RefreshTokens`.

Where the program updates objects or rows in place, a class holds the same fields and its
methods are proved equal to a function on the state; the theorems are about those functions.
So that a function which several of them share is not taken on trust, each operation is also
read off its input, in literal bytes, numbers, dates and statuses: `StripOutcomes`,
`EraseReading`, `SettleOutcomes`, `LedgerOutcomes`, `RefundOutcomes`, `SessionOutcomes`,
`LearningOutcomes`, and lemmas beside the others.
Coordinates and amounts are reals. PosAPI and the gateways answer or fail; a commit is one
atomic step and a unique index is a check made at the commit.

Several premises turned out to be needed, or a promise to fail without them. These are proved
too, with the condition on which the code does meet the promise:

- `strip` starts from default spacing and scale. From every start with other spacing, or a
  scale other than 1 and 0, there is a stream it rewrites although a kept glyph moves
  (`StripProof.DefaultSpacingIsNeeded`).
- A form has one stream, filtered where it is drawn first. Drawn again elsewhere it can lose
  a path that no box covers (`Redrawn.SecondPlacementIsLost`); the erased page paints what it
  should exactly when every placement dooms the same paths as the first
  (`Redrawn.PaintsLeftExactly`), so whenever no form is reached twice
  (`Redrawn.OncePaintsLeft`).
- Between the construction of a path and its painting, where the grammar allows no operator
  but a clip, `_walk` passes over `q`, `Q`, `cm` and `Do`, and any operator cuts the path in
  two, of which only the later part is judged (`PathsProof.OutOfStepExactly`); a path painted
  outside every box can be lost so (`PageErase.MatrixInsidePathIsMissed`). Of an arbitrary
  stream, no more and no less is lost than should be after each path exactly when each is
  judged as it is painted (`PathsProof.RightExactly`).
- The replay branch of `settle` does not look at whose payment it found
  (`Confluence.SettleKeepsCovered`).
- A first receipt is for the gross amount, so it must precede any refund
  (`RefundsProof.IssueKeepsExactly`); a receipt returned in temp mode can still be reissued
  (`RefundsProof.ReissueKeepsExactly`); a refund that moves money while another receipt than
  the one it voids stands leaves the books unsafe, and no other does
  (`RefundsProof.ReachedSafeExactly`, `RefundsProof.NamingReturnedTripsIndex`).
- A full refund that stops after its money step is answered 409 on every retry and never
  gives the seat back, unless it leaves a receipt standing on purpose
  (`RefundsProof.SeatAfterRetry`). The comment in `app/services/refunds.py:14-19` promises
  that the same call can simply be retried.
- The clock is read once to retire lapsed holds and again to count seats. A hold that runs
  out from the one instant to the other is counted free and still owns its seat
  (`Seats.ViewsAgreeExactly`), so a buyer nobody competes with can be refused a free seat
  (`Seats.LapseTurnsAwayAlone`, `Seats.AloneRefusedExactly`). A buyer who saw two free seats
  and lost a race is turned away exactly when the lowest other seat the clock calls free
  belongs to a hold that ran out meanwhile (`Seats.TurnedAwayExactly`,
  `Seats.StuckSeatHasLapsed`); a seat may then be free all the same
  (`Seats.LapseMeanwhileTurnsAway`). A cancelled booking can be sold again unless its seat is
  taken (`Seats.SaleRefusedExactly`).
- An invoice is committed before the booking is pointed at it. Besides the current one an
  invoice stays open exactly when its request has stopped in between (`Checkout.RunKeeps`) or,
  of requests that overlap, when another one pointed the booking away from it
  (`CheckoutRaces.OpenExactly`, `CheckoutRaces.TwoAtOnceLeaveOneOpen`).
- A payment that lands after a request has polled the invoice unpaid, and before it retires
  it, is overwritten, and no other is (`CheckoutRaces.PaidStaysExactly`,
  `CheckoutRaces.PaymentIsOverwritten`).
- A buyer whose requests come one after another pays once for each invoice paid late, besides
  the current one (`Checkout.PaidExactly`).
- `cohorts.py` refuses some cohorts that never meet at the same time
  (`Cohorts.RefusesMoreThanNeeded`): the refusal is justified exactly when the overlap of
  their dates holds a shared weekday (`Cohorts.MeetExactly`), which a week of overlap always
  does (`Cohorts.AWeekIsEnough`).

## Model

| member | source | states |
|---|---|---|
| Geometry.MulActsInOrder | app/pdftools/paths.py:20-28 | applying a product of matrices is applying the left factor and then the right one, the law that lets a walker keep one matrix |
| TextSemantics.ForwardUpdatesTextMatrix | app/pdftools/strip.py:1-8 | moving along the writing line is the text-matrix update of section 9.4.4 |
| TextSemantics.Decode | app/pdftools/strip.py:89-93 | a string is cut into whole codes of the font's width, a last incomplete one showing nothing |
| Strip.Cut | app/pdftools/strip.py:89-111 | the glyph loop writes the elements the specification prescribes for the string, advances the index by its codes, says exactly whether a removable glyph was met, and divides by zero exactly for scale 0 with a glyph to remove |
| Strip.RewriteOne | app/pdftools/strip.py:114-132 | an operator with nothing to remove is kept as it is; otherwise a TJ array stands for it, after the line move and spacing that ' and " imply |
| Strip.RewriteStream | app/pdftools/strip.py:146-159 | the loop with its saved pens replaces each operator by the operators prescribed for it, or refuses the stream |
| Strip.PenState.Apply | app/pdftools/strip.py:71-81 | the tracked pen follows Tf, Tc, Tw, Tz and " and no other operator |
| Strip.Content.Strip | app/pdftools/strip.py:135-167 | the stream's operators change only when the whole of it could be rewritten and its glyph count matches |
| StripOutcomes.StreamDrawsRight | app/pdftools/strip.py:26-34 | in every stream a glyph is drawn with one byte under a simple font and two under Identity-H and Identity-V, and under any other composite or an unknown font none is |
| StripOutcomes.OneStringCounts | app/pdftools/strip.py:135-161 | a string counts as many glyphs as it has bytes, or pairs of bytes, and is stripped exactly when as many were read; under a font whose codes cannot be told, or with size 0, it is refused |
| StripOutcomes.MiddleRemoved | app/pdftools/strip.py:84-132 | with font, spacing and scale set in the stream, the middle one of three glyphs becomes the number -1000 times its space by the size, for each of the four showing operators, the space being its advance by the scale, the character spacing, and the word spacing for the single byte 32 |
| StripOutcomes.LineMoves | app/pdftools/strip.py:127-131 | moving to another line shifts every point by the two operands in the old line's space |
| StripOutcomes.StateReads | app/pdftools/strip.py:71-81 | each text state operator sets its own part of the graphics state, the scale being a percentage, and leaves the pen |
| StripOutcomes.MovesRead | app/pdftools/strip.py:127-131 | TD sets the leading besides moving, the next-line operator moves by the leading, and no other operator that moves the line changes the state |
| StripProof.HoleIsAdvance | app/pdftools/strip.py:99-100 | the space left for a removed glyph, scaled, is exactly the advance it had, word spacing included |
| StripProof.GapKern | app/pdftools/strip.py:84-86 | a gap's number moves the pen by the gap, give or take one rounding unit |
| StripProof.CutElementsSim | app/pdftools/strip.py:89-125 | the cut elements of any array draw the kept glyphs in order, each within its bound, and leave the pen within the bound |
| StripProof.RewriteAllCounts | app/pdftools/strip.py:146-161 | the glyphs the rewrite counts are the glyphs the stream draws |
| StripProof.StripKeptExactly | app/pdftools/strip.py:135-167 | from default spacing and scale, a stream with something to remove is stripped exactly when, at every showing operator, a font of one or two bytes a code and a size that is not 0 have been set in it, the scale is not 0 where a glyph is removed, and it draws as many glyphs as were read |
| StripProof.RewriteAllSim | app/pdftools/strip.py:146-159 | from any tracked state the rewritten operators draw the kept glyphs and reach the same machine up to the pen's bound |
| StripProof.StripPreservesMeaning | app/pdftools/strip.py:135-167 | with exact numbers a stripped stream paints exactly the glyphs not removed, in order, in the same state and place, with every other marking, and ends in the same machine state, from every start with spacing 0 and scale 1 or 0 |
| StripProof.StripPreservesEveryState | app/pdftools/strip.py:146-159 | after every operator of the original there is a point of the rewritten stream with the same pen, graphics state and stack |
| StripProof.StripDisplacesWithinSlack | app/pdftools/strip.py:84-111 | with rounded numbers every kept glyph is displaced along its line by at most one unit for each removed run before it on the line, over whole streams |
| StripProof.StripAsWritten | app/pdftools/strip.py:84-86 | with three decimals that unit is 0.0000005 times the absolute font size times scale |
| StripProof.DisplacedMatrix | app/pdftools/strip.py:84-86 | a displacement along the line is a shift of the text matrix by at most the bound |
| StripProof.DefaultSpacingIsNeeded | app/pdftools/strip.py:61-64 | from every start with other spacing, or a scale other than 1 and 0, there is a stream that is stripped although its kept glyph is then drawn elsewhere |
| Glyphs.WalkContainer | app/pdftools/glyphs.py:56-69 | the recursive walk lists a container's own stream and then its figures' streams, each with its glyphs in drawing order |
| Glyphs.PageStreams | app/pdftools/glyphs.py:56-70 | the page's streams are those of the walk that draw some glyph, in the same order |
| Glyphs.StreamsKeepGlyphs | app/pdftools/glyphs.py:56-70 | splitting a page into streams loses no glyph and invents none, those without glyphs being dropped or not |
| Glyphs.DirectInOrder | app/pdftools/glyphs.py:60-67 | the k-th glyph a container draws itself is the k-th of its stream, figures between them or not |
| Glyphs.NestedInOrder | app/pdftools/glyphs.py:60-69 | a figure's own stream and those of its figures follow those of the figures before it, under the path of names that leads to it |
| Glyphs.DrawingInOrder | app/pdftools/glyphs.py:69-70 | a stream that draws something is numbered by how many such come before it |
| Glyphs.TextAndOwner | app/pdftools/glyphs.py:83-89 | the loop builds the concatenated text with, for every character, the glyph that drew it |
| Glyphs.TextSpells | app/pdftools/glyphs.py:83-89 | character j of glyph n stands in the text behind the lengths of the glyphs before it, and n is its owner |
| Glyphs.OwnerDrewIt | app/pdftools/glyphs.py:83-89 | every character of the text is the one its owner drew, at its place among what the owner draws |
| Glyphs.OwnerDraws | app/pdftools/glyphs.py:83-89 | a character stands among the characters its owner draws, even when glyphs draw several or none |
| Glyphs.FindFrom | app/pdftools/glyphs.py:90-94 | the first occurrence from a position on, or that there is none |
| Glyphs.StartsAreGreedy | app/pdftools/glyphs.py:90-94 | the positions found do not overlap and pass over no occurrence that does not begin inside one of them |
| Glyphs.GreedyIsMost | app/pdftools/glyphs.py:90-94 | no other choice of disjoint occurrences has more, and each is found no later |
| Glyphs.GreedyIsUnique | app/pdftools/glyphs.py:90-94 | there is only one leftmost-greedy choice |
| Glyphs.SmallestRange | app/pdftools/glyphs.py:92-93 | the owners of the first and last character are the smallest range of glyphs that draws them |
| Glyphs.HitsAreExact | app/pdftools/glyphs.py:77-95 | the hits of a stream are exactly its leftmost-greedy occurrences, in order, each with its smallest glyph range |
| Glyphs.Find | app/pdftools/glyphs.py:77-95 | the loops over streams, glyphs and occurrences return those hits stream by stream |
| Glyphs.FoundExactly | app/pdftools/glyphs.py:83-95 | a stream has a hit exactly when its glyphs, read one after another without the text, say the token somewhere, and the glyphs of each hit, no fewer, spell it |
| Glyphs.HitsByStream | app/pdftools/glyphs.py:77-95 | the hits come stream by stream, those of each stream being its own, under its number |
| Glyphs.FindsWhatIsSaid | app/pdftools/glyphs.py:77-95 | so for the whole page: each stream that says the token has a hit, no other has, and each hit is spelled by its glyphs |
| Glyphs.SqueezedText | app/pdftools/glyphs.py:85-87 | leaving out white space glyph by glyph is leaving it out of the whole text |
| Glyphs.SqueezeSplits | app/pdftools/glyphs.py:86-87 | white space goes, what is not white stays in its order |
| Glyphs.GroupByPath | app/pdftools/page.py:18-23 | the glyphs to strip from a stream are exactly those some hit on a stream of that path covers |
| Glyphs.MarkedExactly | app/pdftools/page.py:18-21 | a glyph is marked exactly when its number lies from the first to the last of a hit whose stream has that path |
| Paths.InsideByBounds | app/pdftools/paths.py:39-50 | comparing bounds finds exactly whether all points lie in one padded box, and no points are inside none |
| Paths.InsideExactly | app/pdftools/paths.py:39-50 | points are inside exactly when there are some and one box has none of them farther out than one unit or a quarter of its height |
| Paths.PrintParse | app/pdftools/paths.py:60-88 | cutting a stream into paths and their closers loses nothing |
| Paths.WalkGrows | app/pdftools/paths.py:60-102 | a walk changes only forms it newly visits, and of those only their operators |
| Paths.WalkKeepsSurvivors | app/pdftools/paths.py:60-88 | what the one-pass walk keeps is the stream without the painted paths that lie in a padded box, each judged under the matrix in force |
| Paths.NothingDropped | app/pdftools/paths.py:60-102 | a walk that drops nothing keeps the stream and every form as they are |
| Paths.WalkFiltersForms | app/pdftools/paths.py:91-102 | every newly visited form is left with the filter of its stream, whatever cycles the forms make |
| Paths.VisitedOne | app/pdftools/paths.py:91-102 | a form visited under a matrix is filtered under that matrix times its own |
| Paths.WalkAgain | app/pdftools/paths.py:60-102 | walking what a walk kept, over the forms it left, keeps all of it and changes no form |
| PathsProof.ItemMeaning | app/pdftools/paths.py:69-86 | a path is dropped exactly when what it paints may disappear, and the painter's state is then as if it had not been there |
| PathsProof.FilterPreservesPainting | app/pdftools/paths.py:60-88 | the filter of a well-formed stream paints what the stream paints, in the same order, matrix, clip and state, except exactly the unclipped paths inside a padded box |
| PathsProof.OutOfStepExactly | app/pdftools/paths.py:60-88 | after a path and the operator that follows it, wherever it stands, the painter holds no part of a path exactly when that operator paints or ends one or there was none, and the matrix of the walk is the painter's unless q, Q or cm followed construction and moved it |
| PathsProof.InStepIsJudged | app/pdftools/paths.py:69-86 | only a path that was cut before, is used as a clip or is built under another matrix than the walk's can be misjudged |
| PathsProof.RightExactly | app/pdftools/paths.py:60-88 | for an arbitrary stream: painter and painting are right after every path exactly when every path is dropped just if the whole of what its operator paints may disappear, none of it standing before |
| PathsProof.JudgedPreservesPainting | app/pdftools/paths.py:60-88 | a stream whose paths are so judged, well-formed or not, paints what it painted except exactly the paths that may disappear |
| PageErase.WalkVisits | app/pdftools/paths.py:83-85 | the walk goes into forms in the order, and under the matrices, in which painting draws them |
| PageErase.ErasePreservesPage | app/pdftools/paths.py:105-120 | whatever is drawn again later: the page, with each form at its first placement, shows after erasing what it showed without the paths that may disappear, the origin being at the media box's corner |
| PageErase.EraseIsIdempotent | app/pdftools/paths.py:105-120 | a second erase drops nothing and changes neither page nor forms |
| PageErase.Page.WalkStream | app/pdftools/paths.py:60-88 | the loop that updates matrix, saved matrices, path, points and kept operators keeps, drops and visits what the one-pass walk does |
| PageErase.Page.EraseOne | app/pdftools/paths.py:91-102 | a form is entered once, under its matrix times the current one, and rewritten only when something was dropped |
| PageErase.Page.Erase | app/pdftools/paths.py:105-120 | the page is replaced only when something was dropped; without contents or boxes nothing happens |
| EraseReading.ErasedExactly | app/pdftools/paths.py:31-50 | a painting may disappear exactly when it is no clip, something was constructed, and one box has every operand, mapped by the numbers of the matrix it was met under, no farther out than that |
| EraseReading.NestedExactly | app/pdftools/paths.py:53-120 | a page that draws a form that draws another, each name found in the nearest resources there are: the path in the inner one is erased, and nothing else changes, exactly when one box has every operand near where it is seen from the corner of the media box |
| PageErase.MatrixInsidePathIsMissed | app/pdftools/paths.py:69-76 | in an ill-formed stream with a matrix between construction and painting, a path painted outside the boxes is dropped |
| PageStream.RewrittenPaints | app/pdftools/strip.py:146-159 | with exact numbers, a stream of text and graphics whose text is rewritten paints all it painted but the removed glyphs, in the same order, glyphs under the same clip and shapes under the same matrix, and ends in the same state |
| PageStream.FilteredPaints | app/pdftools/paths.py:60-88 | the same stream without the paths that may disappear paints all the rest, its glyphs included, and ends in the same state |
| PageStream.RemovedIsTwoPasses | app/pdftools/page.py:22-31 | both passes on such a stream are those of the program, each over what it sees of the operators |
| PageStream.RemovedPaints | app/pdftools/page.py:22-31 | with exact numbers, stripped and erased, no division by zero having ended the removal, a stream loses exactly the glyphs to remove, or none of them when it cannot be matched, and exactly the paths inside a padded box |
| PageStream.RemovePaintsNotHit | app/pdftools/page.py:14-31 | with the hits grouped by path, a stream that can be matched loses exactly the glyphs some hit on its path covers and the paths inside the boxes |
| Redrawn.FirstsAreVisited | app/pdftools/paths.py:91-102 | every form the walk reaches is left filtered under the matrix of its first placement in painting order |
| Redrawn.DroppingMarks | app/pdftools/paths.py:60-88 | under any frame, a stream without some of its painted paths paints without their events, and without the right ones exactly when they are the paths that frame dooms |
| Redrawn.PaintsLeftExactly | app/pdftools/paths.py:91-120 | with every placement of every form drawn, the erased page paints what the page painted without the paths that may disappear exactly when every placement of a form dooms the paths that its first one does, and of a form the walk never reaches none |
| Redrawn.OncePaintsLeft | app/pdftools/paths.py:91-120 | so it does whenever no form is reached twice |
| Redrawn.SecondPlacementIsLost | app/pdftools/paths.py:91-94 | a page that draws a dot inside a box and once more a hundred units away loses both, although no box covers the second |
| Curves.BezierIn | app/pdftools/paths.py:31-50 | every point of a curve lies in a box that holds its four control points |
| Curves.ApplyBezier | app/pdftools/paths.py:27-28 | a matrix maps the points of a curve to the points of the mapped curve |
| Curves.ErasedPathLiesInside | app/pdftools/paths.py:39-72 | every point of a dropped path, curves and closing lines included, is no farther from one box than one unit or a quarter of its height, rectangles being met under axis-preserving matrices |
| Curves.CornersNeedAxes | app/pdftools/paths.py:33-35 | for every matrix that does not keep the axes there is a rectangle whose two listed corners lie in a box that a third one leaves |
| Plans.AddMonthsIsClamped | app/services/payments/plans.py:34-37 | a due date falls that many months on, on the same day or on the last day of a shorter month |
| Plans.MonthEnds | app/services/payments/plans.py:34-37 | from a 31 January the months on end on the days of the Gregorian calendar, leap years included |
| Plans.DueDatesIncrease | app/services/payments/plans.py:46-63 | month-end clamping never makes two due dates meet or change places |
| Plans.SplitAddsUp | app/services/payments/plans.py:40-43 | the parts add up to the price, later ones are one whole amount, and the first exceeds it by less than one unit a part |
| Books.Earliest | app/services/payments/ledger.py:51-52 | the next due date is one of the open dates and none is before it |
| BooksProof.SumRemove | app/services/payments/ledger.py:41-50 | a sum over rows does not depend on the order they are read in |
| BooksProof.CentsIsNearest | app/services/payments/helpers.py:14-23 | quantizing an amount gives a nearest whole number of cents, ties to even, and leaves whole cents alone |
| BooksProof.PilotRule | app/services/payments/refund_money.py:34-45 | attendance under 20 percent leaves exactly half with the buyer, unless more has gone back already; otherwise nothing is returned |
| BooksProof.RefundConsistent | app/services/payments/refund_money.py:16-73 | a refund never returns more than was paid nor less than before, and the row is marked refunded exactly when all of it went back |
| BooksProof.RefundRepeats | app/services/payments/refund_money.py:28-44 | the same request again asks for the same total and leaves the row as it is |
| BooksProof.RefundGivesBack | app/services/payments/refund_money.py:30-73 | a figure in whole cents is exactly what has gone back afterwards, the row being fully refunded exactly when it is all that was paid; not positive, over the payment or under what went back before it is refused |
| BooksProof.AttendedGivesBack | app/services/payments/refund_money.py:34-42 | on the books, under 20 percent attended exactly half has gone back afterwards, and otherwise the refund is refused |
| BooksProof.ExclusionIsNeutral | app/services/payments/ledger.py:41-45 | leaving fully refunded payments out of the sum does not change it |
| BooksProof.SettleKeeps | app/services/payments/settlement.py:17-121 | settlements, short payments and replays keep foreign keys, payment rows and every ledger row in step with their source rows |
| BooksProof.RefundKeeps | app/services/payments/refund_money.py:47-73 | so do refunds |
| BooksProof.EnrolledKeeps | app/services/payments/plans.py:66-74 | so do freezing a price and laying out its plan |
| BooksProof.AddKeeps | app/services/payments/plans.py:109-117 | so does adding an installment |
| BooksProof.ReplaceKeeps | app/services/payments/plans.py:126-149 | so do editing and waiving one |
| BooksProof.DeleteKeeps | app/services/payments/plans.py:136-143 | so does deleting one no invoice points at |
| BooksProof.RaiseKeeps | app/services/payments/invoices.py:31-150 | so does raising an invoice |
| BooksProof.AsksNoMoreThanOwed | app/services/payments/invoices.py:124-150 | an invoice asks for an unsettled installment's amount, for a given figure within the outstanding balance, or for that balance to the nearest cent |
| BooksProof.RepriceKeeps | app/services/payments/ledger.py:19-26 | a new course price moves no row whose price is frozen or that has a plan |
| BooksProof.RunKeeps | app/services/payments/ledger.py:29-66 | in every state a run of requests reaches, each such ledger row equals the value recomputed from source rows |
| BooksProof.HistoryStays | app/services/payments/plans.py:21-22 | no request changes a paid or waived installment, except that a payment's arrival marks a waived one paid |
| Balance.NewEnrollmentOwesItsPrice | app/services/payments/plans.py:46-74 | a new enrollment's balance is its frozen price, next due on the first day of its plan |
| Balance.PlanOwesPrice | app/services/payments/plans.py:46-63 | the default plan owes exactly the price and its earliest open date is the first |
| Balance.SettlementLowersBalance | app/services/payments/settlement.py:37-99 | a new transaction lowers the balance by exactly what was received, short or not, plus a waived part it revives |
| Balance.RefundRaisesBalance | app/services/payments/refund_money.py:47-73 | a refund raises the balance by exactly what goes back now |
| LedgerOutcomes.LedgerReads | app/services/payments/ledger.py:29-66 | a row owes the parts that are not waived, or the price without a plan, has what was received and not returned in full, net, and names the earliest date of a part neither paid nor waived |
| LedgerOutcomes.EnrolledReads | app/services/payments/plans.py:28-76 | enrolling freezes the price; without a plan it adds the course's number of parts, whole and equal but for the first, so many months apart from the start or today, unless nothing is due; with one it adds none |
| LedgerOutcomes.AddReads | app/services/payments/plans.py:109-117 | a part is added exactly for an enrollment that is there, with a date and a positive amount |
| LedgerOutcomes.UpdateReads | app/services/payments/plans.py:126-133 | a part is edited exactly while it is open and what is given is positive and a date; the rest stays |
| LedgerOutcomes.WaiveReads | app/services/payments/plans.py:146-149 | a part is waived exactly while it is open |
| LedgerOutcomes.DeleteReads | app/services/payments/plans.py:136-143 | a part is deleted exactly while it is open and no invoice asks for it |
| LedgerOutcomes.RaiseReads | app/services/payments/invoices.py:81-121 | an invoice is stored pending under its provider and reference, for the installment's own enrollment |
| LedgerOutcomes.RaiseForPart | app/services/payments/invoices.py:104-141 | for an installment an invoice asks exactly its amount; it is refused when the installment is another enrollment's, is paid or waived, or another amount is given |
| LedgerOutcomes.RaiseForBalance | app/services/payments/invoices.py:142-150 | for an enrollment it asks the amount given, refused exactly when not positive or over the balance, or else the balance to the nearest cent; nothing due is refused |
| LedgerOutcomes.RaiseAlone | app/services/payments/invoices.py:140-141 | tied to nothing, it asks what it is told, if that is positive |
| Confluence.TellOne | app/services/payments/settlement.py:26-69 | after any set of reported transactions, one more report leads to the state described for the larger set |
| Confluence.RunTells | app/services/payments/settlement.py:17-121 | a run of reports reaches the state described by the set of its transactions alone |
| Confluence.SettlementIsConfluent | app/services/payments/settlement.py:17-121 | reordering and repeating reports of the same transactions leaves the same payments, invoices, installments and ledger rows, one payment for each transaction |
| SettleOutcomes.SettleReads | app/services/payments/settlement.py:17-121 | a paid report adds the row of its transaction id, or of our reference without one, with the reported amount, or the invoice's without one, if it is not there; the invoice is paid when its amount is reached, the installment only by a new row; nothing else changes |
| SettleOutcomes.SettleRolls | app/services/payments/settlement.py:60-98 | a new payment rolls up the ledger row of its own enrollment, short or not, and a replay none |
| SettleOutcomes.RunRecords | app/services/payments/settlement.py:17-121 | after any run of reports the payments are the old ones, unchanged, and one for each provider and transaction reported as paid, as one of the reports has it |
| SettleOutcomes.TwoTransactionsAreTwo | app/services/payments/settlement.py:26-58 | two transactions of one invoice leave two payments with their own amounts, the first short or not |
| SettleOutcomes.ReportsConverge | app/services/payments/settlement.py:17-121 | reports of the same facts for the same transactions leave the same books, with one payment for each |
| Confluence.SettleKeepsCovered | app/services/payments/settlement.py:27-35 | every paid invoice stays covered by money of its own exactly unless a replayed transaction of another invoice settles an uncovered one |
| Reconcile.ThroughFinishes | app/services/payments/callbacks.py:93-107 | after one pass every pending invoice is settled, unmatched, or matched by a recorded short payment |
| Reconcile.ReconcileAgain | app/services/payments/callbacks.py:84-112 | reconciling the same statement again settles nothing and changes nothing |
| Reconcile.FirstMatchReads | app/services/payments/callbacks.py:95-107 | the line an invoice is settled with is the first of the statement that matches it |
| Reconcile.SettledAreCounted | app/services/payments/callbacks.py:93-112 | the count of a pass is the number of pending invoices that are paid after it, and no other invoice changes |
| Database.Tables.TotalPaid | app/services/payments/ledger.py:41-45 | the loop's sum is the sum of net payments that are not fully refunded |
| Database.Tables.TotalDue | app/services/payments/ledger.py:47-50 | the loop's sum is that of installments not waived, and it tells whether there is a plan |
| Database.Tables.NextDue | app/services/payments/ledger.py:51-52 | the loop finds the earliest date of an unpaid, unwaived installment |
| Database.Tables.RecomputeLedger | app/services/payments/ledger.py:29-66 | the stored row becomes the recomputed one and nothing else changes |
| Database.Tables.SettleInvoice | app/services/payments/settlement.py:17-121 | the tables end as the settlement function says, and a payment is answered exactly when it covers the invoice |
| Database.Tables.ReconcileStatement | app/services/payments/callbacks.py:84-112 | the nested loops settle each pending invoice with its first matching line and count them |
| Database.Tables.RefundPayment | app/services/payments/refund_money.py:47-73 | the tables end as the refund function says, or stay as they are with its error |
| Database.Tables.CreateDefaultPlan | app/services/payments/plans.py:46-63 | the loop inserts the rows of the default plan unless there is a plan or nothing to pay |
| Database.Tables.Enrolled | app/services/payments/plans.py:66-74 | the price is frozen once, a plan laid out once and the ledger rolled up |
| Database.Tables.Add | app/services/payments/plans.py:109-117 | adding an installment and its errors |
| Database.Tables.Update | app/services/payments/plans.py:126-133 | editing an installment and its errors |
| Database.Tables.Waive | app/services/payments/plans.py:146-149 | waiving an installment and its errors |
| Database.Tables.Delete | app/services/payments/plans.py:136-143 | deleting an installment and its errors |
| Refunds.ReceiptFor | app/services/refund_refs.py:103-107 | the newest standing receipt, and a returned one only when none stands |
| RefundsProof.SafeMeans | migrations/versions/c1d4f2a70b83_ebarimt_replacement_receipt.py:44-50 | in a safe state the unique index holds and a standing receipt never exceeds what was paid and not returned |
| RefundsProof.ReturnKeeps | app/services/ebarimt/returns.py:42-56 | returning a standing receipt is safe and leaves none |
| RefundsProof.IssueKeeps | app/services/ebarimt/returns.py:59-113 | a new receipt for exactly the money kept is safe when none stands |
| RefundsProof.MoneyKeepsExactly | app/services/refunds.py:157-166 | the money step is safe exactly when no receipt stands or no money moves |
| RefundsProof.ReachedSafeExactly | app/services/refunds.py:94-195 | wherever any refund stops, under whichever reference and voiding or not, the books are safe exactly when the money step was not reached, nothing stood, the standing receipt is the one voided, or no money moves |
| RefundsProof.ReachedKeeps | app/services/refunds.py:94-195 | so where a sound refund stops, at most one receipt stands, for exactly what the buyer has left, and the index accepts the commit |
| RefundsProof.RunIsSafe | app/services/refunds.py:94-195 | so in every run of sound refunds and their repetitions, of others that stop before the money step, failures, returns and issuing of receipts; the tax authority holds exactly the issued ones |
| RefundsProof.RetryConverges | app/services/refunds.py:102-176 | any request stopped after any prefix of its commits and repeated reaches the payment and receipts of an uninterrupted run |
| RefundsProof.Resumes | app/services/refunds.py:102-176 | stopped after n commits and repeated for m, a request has done what one attempt of the longer of the two does |
| RefundsProof.RetriedIsFarthest | app/services/refunds.py:14-19 | any number of interrupted attempts leaves what the one that got farthest leaves by itself |
| RefundsProof.RetriesConverge | app/services/refunds.py:14-19 | so a request let through at last, after any number of interrupted attempts, reaches the payment and receipts of an uninterrupted run, and further repeats change neither |
| RefundsProof.SoundAgain | app/services/refunds.py:14-19 | a sound request stays sound wherever it stops, so its repetitions are safe too |
| RefundsProof.SeatAfterRetry | app/services/refunds.py:112-125 | a repetition of a full refund gives the seat back exactly when the stop came before the money step or the request leaves an existing receipt standing |
| RefundOutcomes.MoneyOutcome | app/services/refunds.py:94-195 | a request that names a figure in whole cents returns that much in total, and gives up seat and enrollment exactly when it is the whole payment |
| RefundOutcomes.ReceiptOutcome | app/services/refunds.py:126-186 | a full refund leaves no receipt standing, a partial one leaves one for what the buyer keeps, if there was any |
| RefundOutcomes.CorrectionOutcome | app/services/ebarimt/returns.py:42-113 | row by row and at the tax authority: the last receipt is returned and corrected by a new one linked to it, unless it is the correction asked for |
| RefundOutcomes.StandingOutcome | app/services/refunds.py:138-176 | a refund that is asked to leave the receipt standing changes no receipt, here or at the tax authority |
| RefundOutcomes.RefusedOutcome | app/services/refunds.py:179-195 | a figure that cannot be returned is refused before anything moves |
| RefundOutcomes.AgainOutcome | app/services/refunds.py:112-125 | of a payment that has gone back, a standing receipt is returned and the seat given up; without one nothing changes, which is the answer |
| RefundOutcomes.NothingLeftExactly | app/services/refunds.py:112-117 | the answer is that nothing is left to undo exactly when all the money had gone back before and there is no receipt, or one to be voided that was returned before or never issued |
| RefundOutcomes.StepsRead | app/services/refunds.py:94-195 | a request stops before the money when a receipt held by the tax authority cannot be returned, and after it when the correction cannot be stamped, and nowhere else |
| RefundsProof.NamingReturnedTripsIndex | app/services/refund_refs.py:62-68 | naming an old returned receipt of a payment whose replacement stands ends in a receipt the index refuses |
| RefundsProof.IssueKeepsExactly | app/services/ebarimt/issuance.py:22-69 | issuing for a payment is safe exactly when a receipt exists or nothing was refunded |
| RefundOutcomes.FirstOutcome | app/services/ebarimt/issuance.py:22-69 | the first receipt is for the whole payment and corrects none |
| RefundsProof.ReissueKeepsExactly | app/services/ebarimt/issuance.py:181-189 | sending a temp receipt is safe exactly when it was not returned, or is the last and for the money kept |
| RefundOutcomes.SentOutcome | app/services/ebarimt/issuance.py:181-189 | a receipt captured in temp mode gets the next number and keeps the rest |
| RefundsProof.PersistKeepsExactly | app/services/ebarimt/issuance.py:72-96 | a receipt that cannot be stored leaves no orphan exactly when it was never sent or its number is handed back |
| RefundDesk.Desk.FindReceipt | app/services/refund_refs.py:103-107 | the loop finds the receipt a refund must void |
| RefundDesk.Desk.VoidReceipt | app/services/ebarimt/returns.py:42-56 | a returned receipt is refused, a failed call changes nothing, otherwise the receipt is returned here and at the tax authority |
| RefundDesk.Desk.Replace | app/services/ebarimt/returns.py:59-113 | a standing receipt of the same amount is reused, otherwise one is issued and linked to the original |
| RefundDesk.Desk.IssueFirst | app/services/ebarimt/issuance.py:22-69 | an existing receipt is answered with, otherwise one is issued for the payment |
| RefundDesk.Desk.ReturnMoney | app/services/payments/refund_money.py:47-73 | the payment row after the money step |
| RefundDesk.Desk.GiveBackSeat | app/services/refunds.py:205-226 | a held or sold seat is cancelled and the enrollment closed |
| RefundDesk.Desk.Refund | app/services/refunds.py:94-195 | a request gets through exactly the steps the tax authority's answers allow, leaves the state described for that many, and is answered with an error exactly when its body is bad, a call failed or nothing was left to undo |
| Seats.StuckExactly | app/services/enrolment/booking.py:62-80 | after retiring at one instant, a seat counted free at a later one is refused by the index exactly when a hold on it runs out from the one to the other |
| Seats.ViewsAgreeExactly | app/services/enrolment/_common.py:112-126 | so the seats counted free are those the index accepts exactly when no hold on a seat for sale does |
| Seats.Pick | app/services/enrolment/booking.py:87-96 | a seat is offered unless every seat is counted or taken, and the offered one is neither |
| Seats.InsertIsUnique | migrations/versions/f1c8d3b5a207_uniqueness_guards.py:31-37 | the index accepts a live booking exactly when no live row has its seat |
| Seats.RefusedExactly | app/services/enrolment/booking.py:26-59 | whatever happens in between, a buyer is refused exactly when no seat was counted free, or the chosen one was refused by the index and the lowest other seat then free to the clock is missing or refused too |
| Seats.AloneRefusedExactly | app/services/enrolment/booking.py:26-59 | a buyer with nobody else at work is refused exactly when every seat is sold or held, or the seats chosen belong to holds that ran out between the readings |
| Seats.BookAloneSucceeds | app/services/enrolment/booking.py:26-59 | when no hold runs out from retiring to reading, a buyer alone gets the wanted seat if it is free, at the first insert, and is refused only when every seat is sold or held |
| Seats.BookAloneReads | app/services/enrolment/booking.py:26-121 | row by row: holds that ran out are released, the buyer gets a hold of the wanted seat if it is vacant and of the lowest vacant one otherwise, and nothing else changes |
| Seats.ServedReads | app/services/enrolment/booking.py:46-146 | whatever the rows have become, a buyer who is served gets the chosen seat if nobody has it by then, else the lowest other one counted free |
| Seats.LapseTurnsAwayAlone | app/services/enrolment/booking.py:62-80 | a run in which a hold does, and the buyer is refused the only seat although the clock calls it free |
| Seats.OneRivalIsNoHarm | app/services/enrolment/booking.py:124-146 | one competing commit cannot turn a buyer away while two seats are free and no other hold runs out from retiring to the last reading |
| Seats.RivalBooks | app/services/enrolment/booking.py:50-59 | another buyer's booking is such a commit |
| Seats.StepIsRival | app/services/enrolment/booking.py:50-146 | so is every step anybody takes: a booking, a sale, a sweep, a seat given back |
| Seats.StepsAreBooking | app/services/enrolment/booking.py:26-146 | the steps of one buyer, with whatever the others do in between, are a booking as the code makes it |
| Seats.ClockReads | app/services/enrolment/booking.py:66-77 | only waiting moves the clock on; waiting, arriving and reading change no booking |
| Seats.TurnedAwayExactly | app/services/enrolment/booking.py:124-146 | none having run out from retiring to reading, and whatever runs out later, the buyer who saw two free seats is turned away exactly when the chosen one was lost and the lowest other seat free to the clock is still owned in the index |
| Seats.StuckSeatHasLapsed | app/services/enrolment/booking.py:62-80 | such a seat belongs to a hold that was running at the first reading and ran out by the second |
| Seats.LapseMeanwhileTurnsAway | app/services/enrolment/booking.py:124-146 | a run in which that happens although another seat is free |
| Seats.SaleRefusedExactly | app/services/enrolment/checkout.py:164-187 | a sale is refused exactly when another live row owns the seat, whether the clock still counts it or only the index knows it |
| Seats.SoldReads | app/services/enrolment/checkout.py:179-187 | a sale changes its own row to sold and no other |
| Seats.NeverOversold | migrations/versions/f1c8d3b5a207_uniqueness_guards.py:31-37 | distinct seats in range mean no more live bookings than seats |
| Seats.PlayKeeps | app/services/enrolment/booking.py:26-146 | in every interleaving live bookings hold distinct seats for sale, no two buyers are served one row, and the run is never oversold |
| Seats.SoldStaysSold | app/services/enrolment/checkout.py:164-187 | whatever else happens, a sold seat keeps its booking until it is given back |
| Seats.Register.RetireLapsed | app/services/enrolment/booking.py:62-80 | the update releases exactly the holds that ran out before now |
| Seats.Register.SeatCounts | app/services/enrolment/_common.py:112-126 | the loop collects exactly the seats of sold rows and of holds still running |
| Seats.Register.Choose | app/services/enrolment/booking.py:87-96 | the wanted seat if free, otherwise the first free one |
| Seats.Register.BookSeat | app/services/enrolment/booking.py:26-59 | retiring, choosing, inserting and one retry at the three instants the clock is read, as the specification for a buyer alone |
| Seats.Register.RebookNextFree | app/services/enrolment/booking.py:124-146 | the retry leaves the collided seat out and gives up on a second refusal |
| Seats.Register.Sell | app/services/enrolment/checkout.py:164-187 | a hold becomes a sale unless its seat went to someone else |
| Checkout.RunKeeps | app/services/enrolment/checkout.py:113-146 | requests coming one after another: in every run the pending invoices the booking does not point at are those of requests stopped between raising and pointing, less those paid since, and there are none exactly when each of these was paid; while nobody pays another than the current one, no other is paid |
| Checkout.PaidExactly | app/services/enrolment/checkout.py:121-125 | requests coming one after another: in every run the paid invoices are the current one, if paid, and each other one paid late; two are paid exactly when an invoice the booking does not point at and another one have been |
| Checkout.AskingAgainReuses | app/services/enrolment/checkout.py:116-135 | asking again at the same gateway answers with the same invoice, and once it is paid every gateway's button does |
| Checkout.RequestReads | app/services/enrolment/checkout.py:126-146 | by the current invoice: paid, or pending at the same gateway, it is the answer; pending at another it is polled, and paid it is the answer, unpaid it is cancelled; otherwise one is raised |
| Checkout.Booking.RequestInvoice | app/services/enrolment/checkout.py:113-146 | checking, retiring, reusing, raising and pointing in the order of the code, keeping what was committed when a gateway fails or the request stops |
| CheckoutRaces.OpenExactly | app/services/enrolment/checkout.py:137-145 | in every interleaving of requests and callbacks, a pending invoice is one the booking does not point at exactly when its request has raised it and not pointed at it, or another request pointed away from it |
| CheckoutRaces.OvertakingIsOverlap | app/services/enrolment/checkout.py:126-145 | pointing away from a pending invoice takes two requests at once: the booking points elsewhere than the request had read |
| CheckoutRaces.ApartOpenExactly | app/services/payments/invoices.py:99-101 | requests that never do so leave one open invoice at most, except exactly those raised and not pointed at |
| CheckoutRaces.TwoAtOnceLeaveOneOpen | app/services/enrolment/checkout.py:126-145 | two requests that both find no invoice leave one open beside the current one |
| CheckoutRaces.PaidStaysExactly | app/services/enrolment/checkout.py:127-131 | a paid invoice stays paid at every step except that of a request which polled it before it was paid and now retires it |
| CheckoutRaces.PaymentIsOverwritten | app/services/payments/callbacks.py:71-80 | a run in which a callback lands in between and its payment is overwritten |
| CheckoutRaces.AloneIsInvoiceFor | app/services/enrolment/checkout.py:113-146 | with nobody else at work the steps of a request are the request taken as one, let through, refused or stopped |
| Timetable.MeetingDates | app/services/attendance/generate.py:27-37 | the day-by-day loop returns every date in range on a meeting weekday, once and in order |
| Timetable.ProtectedStays | app/services/attendance/generate.py:40-50 | sessions that are history are left exactly as they are |
| Timetable.EveryDateHasSession | app/services/attendance/generate.py:79-92 | every meeting date has a session, at the schedule's time where none was there or one may still move |
| Timetable.OffDatesAreHistory | app/services/attendance/generate.py:93-98 | after regenerating, whatever is off the meeting dates is history |
| Timetable.DistinctStays | app/services/attendance/generate.py:79-109 | no date and start time is used twice, so the commit is not refused on that account |
| Timetable.AgainIsNothing | app/services/attendance/generate.py:69-112 | an immediate rerun creates, moves and removes nothing |
| Timetable.LessonsByDate | app/services/attendance/generate.py:53-66 | a session without a lesson, with r such sessions before it by date and start time, gets the r-th untaught lesson while there is one; others keep theirs |
| SessionOutcomes.IncompleteExactly | app/services/attendance/generate.py:28-31 | generating is refused exactly when a date, every weekday or the start time is missing |
| SessionOutcomes.WeekdayReads | app/services/attendance/generate.py:34-35 | ordinal 1 is a Monday and weekdays follow one another |
| SessionOutcomes.GeneratedReads | app/services/attendance/generate.py:69-112 | row by row: the old rows that stay, in order, each as it was or moved to the schedule's time, then one new row for each meeting day without any; what goes, moves and stays is told by dates, weekdays, attendance and handovers |
| SessionOutcomes.LessonReads | app/services/attendance/generate.py:53-66 | lesson k of the course goes to the session without one that has as many such sooner, by date, start time and storage, as there are lessons before k that no session has |
| SessionOutcomes.NoLessonReads | app/services/attendance/generate.py:60-65 | a session that has a lesson keeps it, and one for which none is left stays without |
| Timetable.GroupByDate | app/services/attendance/generate.py:74-76 | each date with sessions maps to their indexes in order |
| Timetable.Calendar.OneDate | app/services/attendance/generate.py:85-92 | on a date with sessions the first that may move is moved, only when regenerating and when none has the time |
| Timetable.Calendar.StillMeeting | app/services/attendance/generate.py:93-98 | the loop drops exactly the rows on left-over dates that are not history |
| Timetable.Calendar.Generate | app/services/attendance/generate.py:69-112 | the rows end as specified, and the report counts exactly the rows created, moved and removed, the other meeting dates being skipped |
| Timetable.Calendar.AssignLessons | app/services/attendance/generate.py:53-66 | the loop over the sorted sessions hands out lessons as specified, and counts them |
| Cohorts.TimesCompareAsStrings | app/services/cohorts.py:101-104 | comparing two valid HH:MM strings is comparing their minutes of the day |
| Cohorts.StoredKeeps | app/services/cohorts.py:161-176 | a cohort that is stored clashes with no other of its teacher or room |
| Cohorts.StoredExactly | app/services/cohorts.py:77-176 | a cohort is stored exactly when its dates, days and times are possible and no other one with its teacher or its room has overlapping dates, a common weekday and overlapping times, unknown days and times counting as all |
| Cohorts.IsTimeReads | app/services/cohorts.py:23-23 | a time is accepted exactly when it writes an hour below 24 and a minute below 60 with two digits each |
| Cohorts.RunKeeps | app/services/cohorts.py:161-182 | so in every state that creating, updating and deleting reach |
| Cohorts.NeverInTwoPlaces | app/services/cohorts.py:95-146 | two cohorts of one teacher or room never share a concrete date and minute |
| Cohorts.ScheduleReads | app/services/attendance/generate.py:27-37 | a cohort's sessions are laid out by its own dates, weekdays and times, an empty time being none |
| Cohorts.FreshSessionsDoNotOverlap | app/services/attendance/generate.py:27-83 | sessions freshly generated for two such cohorts never overlap |
| Cohorts.MeetExactly | app/services/cohorts.py:107-125 | cohorts with known schedules are in class on one date and minute exactly when they clash and a date in both ranges falls on a weekday of both |
| Cohorts.AWeekIsEnough | app/services/cohorts.py:107-125 | so the check is exact once the date ranges overlap by seven days |
| Cohorts.RefusesMoreThanNeeded | app/services/cohorts.py:107-125 | a pair that is refused although it shares no date and minute |
| Cohorts.Registry.FindConflict | app/services/cohorts.py:107-125 | the loop over other cohorts finds a clash exactly when there is one |
| Cohorts.Registry.Save | app/services/cohorts.py:138-176 | the first failing check answers, teacher before room, and only an accepted cohort is stored |
| Cohorts.Registry.Remove | app/services/cohorts.py:179-182 | deleting takes exactly that cohort out of the register |
| Learning.GatedIds | app/services/learning/completion.py:54-63 | a lesson is gated exactly when an earlier one is uncompleted and its own class day has not come |
| LearningOutcomes.WellBuiltReads | app/services/learning/path.py:29-38 | where no lesson stands in two modules or twice in one, the ordered lessons of a course are distinct |
| LearningOutcomes.GatedReads | app/services/learning/completion.py:54-63 | by module and position: a lesson is gated exactly when an earlier one is not completed and it has no class of its own or one still to come |
| LearningOutcomes.OpenReads | app/services/access.py:57-75 | a lesson is open exactly when neither its module's first class nor its own is still to come and it has its own class or all earlier lessons are completed |
| Learning.OpenStaysOpen | app/services/learning/completion.py:54-75 | completing lessons and passing days never gate or close an open lesson |
| Learning.FirstUndoneIsNotGated | app/services/learning/completion.py:54-63 | the first uncompleted lesson is never gated |
| Learning.NeverStuck | app/services/access.py:58-75 | while lessons are left and no class lies ahead, one of them is open |
| Learning.WalkFinishesExactly | app/services/learning/completion.py:23-75 | however a student chooses, a walk that cannot go on has completed the course in exactly as many steps as lessons were left |
| Learning.PercentMeans | app/services/learning/path.py:114-131 | 100 percent is said exactly when every lesson is completed, and completing never lowers the figure |
| LearningOutcomes.PercentReads | app/services/learning/path.py:114-131 | the figure is the whole percents of the course's lessons that are completed, 0 for a course without any |
| Learning.ContinueTarget | app/services/learning/path.py:134-144 | the loop returns the first uncompleted lesson of unlocked modules, or else their last lesson |
| LearningOutcomes.ContinueReads | app/services/learning/path.py:134-144 | the student is sent to the unlocked lesson before which all unlocked ones are completed, and which is not, or is the last; to none exactly when none is unlocked |
| Learning.ContinueIsNotGated | app/services/learning/path.py:134-144 | with no module locked the student is never sent to a gated lesson, and to a completed one only when all are |
| Learning.Enrollment.MarkCompleted | app/services/learning/completion.py:23-41 | completion is sticky and the stored percentage stays equal to the computed one |
| Learning.Enrollment.OnAttended | app/services/learning/completion.py:44-51 | exactly an attended class with a lesson completes it |
| RefreshTokens.OneLivePerChain | app/auth/refresh.py:45-66 | a rotation chain has at most one token that is not revoked, its last |
| RefreshTokens.ChainsAreLines | app/auth/refresh.py:45-66 | of two tokens of one chain one was rotated into the other: chains neither branch nor cycle |
| RefreshTokens.ReplaceKeeps | app/auth/refresh.py:45-66 | a rotation extends its chain by one live token at the end |
| RefreshTokens.RunKeeps | app/auth/refresh.py:45-124 | in every sequential run links strictly increase, and a revoked or replaced token is so for good |
| RefreshTokens.ReuseEndsEverySession | app/auth/refresh.py:81-92 | presenting a superseded token leaves its account without a live one and other accounts alone; one merely logged out changes nothing |
| RefreshTokens.RotationKeepsSessions | app/auth/refresh.py:94-103 | a rotation swaps one live token for another, so the number of sessions stays the same |
| RefreshTokens.RotatedExactly | app/auth/refresh.py:69-103 | a token is exchanged exactly when it is known, neither revoked nor run out by the clock, and its account is active; the new one runs from now, and each refusal has its own reason, in order |
| RefreshTokens.Store.IssueToken | app/auth/refresh.py:45-66 | the new row, and the old one revoked and linked to it |
| RefreshTokens.Store.RevokeAccount | app/auth/refresh.py:117-124 | every live token of the account is revoked, and counted |
| RefreshTokens.Store.RotateToken | app/auth/refresh.py:69-103 | each refusal in its order, reuse detection, or a rotation |
| RefreshTokens.Store.RevokeToken | app/auth/refresh.py:106-114 | logging out revokes one token; a blank one is answered differently and an unknown one changes nothing |

## Left out

- Vertical writing, Type 3 glyph matrices, fonts set through an ExtGState, and the parsing and encoding of streams: operators, glyphs and advances are the inputs.
- Strip.PenState.Load: a saved pen is a value, so that `copy` and the clone it makes are not told apart.
- Glyphs.Find: the box, size, colour and right-hand bound of a hit, and Unicode normalisation, which a glyph's text has been through.
- Grouping hits on one line into a joint box (`app/pdftools/page.py:26-30`), the boxes being inputs here, and stamping overlays.
- PageStream.RemovedPaints: rounding, whose bound on the text alone is `StripDisplacesWithinSlack`, and forms drawn by the stream, which are events of their own there; what erasing does to them is in `PageErase` and `Redrawn`.
- PageErase.Page.Erase: an empty resource dictionary of a form counts as missing, as in the source; object identity of forms is their number.
- PageErase.ErasePreservesPage: a form's second and later placements are one event of their own there; `Redrawn` draws them all.
- Time stamps of settlement (`paid_at`), methods, currencies and raw gateway bodies: they depend on the order of events and carry no amounts.
- The positions (`seq`) of installments and their unique constraint; the overdue sweep.
- Database: concurrent transactions on one row; a method is one transaction and its commit succeeds.
- Rounding of stored amounts to two decimals by the database, beyond the quantizing of a request's own figure.
- Automatic issue of a receipt after a settlement is the step `IssueFirst`; mails, lotteries, taxes and payloads are not modelled.
- RefundsProof.RetryConverges: a void that the tax authority accepted and whose local commit then failed, since a second void is refused there and no retry can converge.
- RefundDesk.Desk.Refund: looking a reference up by token, invoice, number or lottery; a request names the payment or one of its receipts. The client's request record of the booking is not modelled.
- Bulk reissue of temp receipts over many payments (`app/services/ebarimt/issuance.py:192-207`): each receipt is one `SendTemp` step.
- Checkout.RunKeeps: requests that overlap, which are in `CheckoutRaces`; so for `PaidExactly` and `AskingAgainReuses`.
- Checkout.Booking.RequestInvoice: the row the gateway's artefacts are kept in, and the ledger, which a checkout invoice has none of.
- Seats: price, promotion and deposit share of a booking, and which run a public id stands for.
- Seats.Register.BookSeat: other transactions between its reading and its insert are in `OneRivalIsNoHarm`, `TurnedAwayExactly` and `PlayKeeps`, not in the method.
- Timetable.Calendar.AssignLessons: the library sort is the function `ByDateAndTime`, not a loop.
- Cohorts.RunKeeps: two cohorts stored at the same time; no row is locked, and neither check sees the other cohort.
- Cohorts.Registry.Save: name, status and references of a cohort, which only refuse more; digits of a time are ASCII, and a final newline, which the pattern would let pass, is not.
- Learning: authoring of lessons during a run, quizzes, attendance figures, and the choice of the earliest class of a lesson, which is an input.
- RefreshTokens.Store.RotateToken: two simultaneous rotations of one token, as no row is locked; hashes are taken to identify a token.
- Routes, permissions, JSON shapes, HTTP clients and storage.
