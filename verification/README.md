# The client's kernels, modelled and proved

A warehouse client photographs things, cuts the photographs to faces or wraps them
round a side, stores each act until it is answered, and listens on one stream for
changes. This project models the parts of it that carry state machines,
array algorithms or arithmetic, and proves what each is for.

- **Finding a face** (`Piece`, `Hull` on `Geometry`, `MonotoneChain` and `Polygon`,
  `BiggestQuad`, `QuadFit`, `FaceFind`). The flood fill marks exactly the connected
  piece; its hull is strictly convex and holds every pixel corner; the quad found on it
  is the largest of all on its candidates, and convex; so the cells the half-plane test
  passes are exactly those centred in the quad, and the score is what share of both
  together both cover.
- **Straightening it** (`Cut`, `Onto`, `Straighten`, `Clamped`). The guard `isFace`
  makes the projective map a bijection of the unit square and the face: no division by
  zero, corners on corners, segments on segments, and each point of the face the image
  of one point, found by the inverse map. The resampler reads the bilinear function
  through the four pixels round a point, and a whole photograph comes out as it was.
- **Acts kept on the device** (`Entries`, `OutboxRuns`, `Outbox`, `Acts`, `ExactlyOnce`,
  `SafeRuns`, `OneTab`, `StaleDrain`, `WholeActs`, `Drains`). A world of tabs, drains,
  presses, updates, landed writes, crashes and reloads over one store and one idempotent
  ledger, every stretch between awaits one step; each method of the outbox is shown to
  take a tab and the store where the step takes the world. No act kept leaves unless the
  ledger has a record under every name of every write it landed with, or it was refused
  to its press, or the person let it go; survivors keep their order. No drain sends
  anybody's act but its owner's, and left to itself it sends them all. Over all runs
  from an empty store in which an act pressed again is the act it was, one id per name
  is safe exactly when no drain goes on to an entry whose ids have changed since it was
  read, and neither a drain nor a press begins to send what is being sent already.
- **Acts that are several writes** (`MultiWrite`, `TakeOut`, `Despatch`, `Picks`).
  Stopped anywhere and run again, each ends with the ledger of one uninterrupted run.
- **The live channel** (`Frames`, `ChannelRuns`, `ChannelSteps`, `Superseded`,
  `Channel`, `Stream`). The event-stream reader does not depend on how the text is cut,
  and undoes a printer; over it, the channel hears what the server printed, however it
  came. The connection, poll and retry machine keeps its invariant over every run, stale
  connections included, a connection given up leaves every run as if it had never been,
  and a change is sure to be heard exactly when the subscription has had its first
  hello.
- **Wrapping a round thing** (`FillGaps`, `Siblings`, `Layers`, `Balance`, `LineUp`,
  `Minimise`, `Overlap`, `Outline`). The hole filler, the blend over it, the ring
  search, the simplex and the running counts, each with what every pixel, point or count
  of it is.
- **Paths** (`Percent`, `Routing`). Matching undoes building and stripping a base undoes
  putting it on, over percent-encoding as in section 2.1 of RFC 3986, which is itself
  proved to be undone by decoding.

`Grid`, `Options` and `Sorting` are shared. Floating point is taken as exact reals or
integers throughout. Where the source updates in place the model does too: arrays and
classes whose methods are proved against functions of the old state, and the theorems
are about those functions.

## What turned out not to hold

Each is stated with an input that shows it and the condition, for all inputs, under
which the property holds.

- **Exactly once** fails even in one tab with one person. A drain reads its list once
  (`client/domain/outbox.ts:170`). An act is on its way as a press of two writes begins;
  the act loses its reply, and a drain begins and reads both, the press with one id. The
  press mints its second after, loses that reply and ends. The drain comes to the entry
  it read, sends its first write again, and has no id for the second, so it mints
  another: `StaleDrain.RecordsItTwice` is that run, write by write as the bench sends,
  and its ledger has two records of one write. Over every run from an empty store in
  which acts are put and pressed again as they were, by anybody at any time, the sends
  under way keep one id to a name exactly when each drain goes on only to entries whose
  stored ids are those it read, and drains and presses begin only what nobody else is
  sending (`SafeRuns.SafeExactly`). In one tab that is for the tab itself to see: the
  stored ids, as a drain looks whether the entry is still kept
  (`client/domain/outbox.ts:173`), and for a press, that its key is not among those
  pressed, nor its drain's (`OneTab.SafeExactlyInOneTab`).
- **A change is heard** only once the subscription has had its first hello: before it,
  the stream can be lost, and the next hello counts as the first and settles nothing
  (`ChannelRuns.LostBeforeTheFirstHello`, `ChannelRuns.HeardExactlyAfterHello`).
- **Parts of an act are named apart** unless one part's name goes on from another's by a
  colon (`Acts.PartsApart`), as `carton` and `carton:2` do (`Acts.PartsThatCollide`).
- **The overlap score is at most one**, against every mask, exactly when rounding the
  outline's crossings to whole columns does not make it wider over all its rows
  (`Overlap.AtMostOneExactly`); a thin outline scores five (`Overlap.MayScoreMoreThanOne`).
- **A matched path gives back its params** exactly when none is empty: an empty one is
  encoded as nothing and its slash collapses (`Routing.MatchUndoesBuild`,
  `Routing.EmptyParamIsLost`).
- **A layer can be moved round** by any number of columns to the left, and to the right
  by at most eight times round (`Layers.OnTheRowExactly`); two columns moved seventeen
  read column minus one (`Layers.ReadOffTheRow`).
- `lineUp` round a ring of no layers and `minimise` in no dimensions throw
  (`LineUp.LineUpRing`, `Minimise.Minimise`).

## Model

| member | source | states |
|---|---|---|
| `Piece.PieceAt` | client/app/items/faceFind.ts:60-80 | The piece is exactly the cells joined to the start through the mask by steps across or down, none of them round the end of a row; `area` is how many; from a point on an unset cell, none |
| `Piece.Fill` | client/app/items/faceFind.ts:65-79 | The stack and its loop end, having marked exactly what is connected |
| `Piece.LookRound` | client/app/items/faceFind.ts:72-77 | What is said and new round a cell is marked and put on the stack, and what had been looked round stays so |
| `Piece.AroundIsAdjacent` | client/app/items/faceFind.ts:71-73 | The four indices looked at are, on the grid, exactly the cells that share an edge: no wrapping between rows |
| `Piece.SamePiece` | client/app/items/faceFind.ts:60-80 | Wherever in a piece the point falls, the piece is the same |
| `Piece.ConnectedIsLeast` | client/app/items/faceFind.ts:60-80 | What is joined to a set cell is it, set cells only, and with each those that share an edge with it; every set of cells that is so has all of it |
| `Piece.StartIsOnGrid` | client/app/items/faceFind.ts:62-64 | The clamped start is a cell whenever there is one |
| `Piece.StartIsNearest` | client/app/items/faceFind.ts:62-64 | No cell is nearer the point, across or down, than the start; of two as near it is the further one |
| `Geometry.TurningOn` | client/app/items/faceFind.ts:82-82 | Two turns the same way while heading forwards make a turn that way |
| `MonotoneChain.Chain` | client/app/items/faceFind.ts:99-106 | One way of the monotone chain: from first to last, always turning, with none of the points outside it |
| `MonotoneChain.JoinedIsConvex` | client/app/items/faceFind.ts:98-107 | The two chains make one strictly convex polygon of the points that encloses them all |
| `Polygon.EdgesMakeItConvex` | client/app/items/faceFind.ts:84-108 | Turning at every corner with nothing outside any edge, any three corners in order turn the same way |
| `Hull.RowEnds` | client/app/items/faceFind.ts:86-96 | The corners of each row's first and last pixel, for every row with any |
| `Hull.Hull` | client/app/items/faceFind.ts:85-108 | Of any non-empty piece: a strictly convex polygon, its corners pixel corners of the piece, and every corner of every pixel on or inside every edge; of an empty one, nothing |
| `BiggestQuad.AtMostEighty` | client/app/items/faceFind.ts:118-120 | At most eighty candidates, and all the points when there are no more |
| `BiggestQuad.ShorterLeavesMore` | client/app/items/faceFind.ts:118-120 | Any shorter stride leaves more than eighty |
| `BiggestQuad.EveryNthConvex` | client/app/items/faceFind.ts:118-120 | Stepping over corners keeps a polygon convex |
| `BiggestQuad.Farthest` | client/app/items/faceFind.ts:127-135 | The inner search finds the largest triangle on its side of the diagonal |
| `BiggestQuad.Find` | client/app/items/faceFind.ts:117-143 | Of four candidates or more, a quad whose two triangles are as large together as any four in cyclic order; of fewer, nothing |
| `BiggestQuad.CrosswiseConvex` | client/app/items/faceFind.ts:110-143 | On a convex polygon a quad in order turns at all four corners, and its two triangles are its area by the shoelace |
| `BiggestQuad.LargestByArea` | client/app/items/faceFind.ts:112-143 | On a hull, the quad found has the largest area of every four corners, whichever diagonal each was measured on |
| `QuadFit.HalfPlanesAreTheQuad` | client/app/items/faceFind.ts:160-163 | For a quad that turns at every corner, passing the four half-plane tests is being a mean of its corners: no more of the plane and no less |
| `QuadFit.TestedAtItsMiddle` | client/app/items/faceFind.ts:160-167 | A cell is tested half across it and half down, on which side of each of the four edges that is |
| `QuadFit.InsideIsInTheQuad` | client/app/items/faceFind.ts:160-163 | For a quad that turns at every corner, a cell passes the half-plane test exactly when its centre is a mean of the corners |
| `QuadFit.CoveredAreTheCellsIn` | client/app/items/faceFind.ts:164-171 | The cells counted as covered are exactly those of the picture centred in the quad |
| `QuadFit.QuadFit` | client/app/items/faceFind.ts:159-173 | Whatever area it is given: both over either, of the piece's cells and the cells the quad covers, and nothing where that is nothing over nothing; no cells at all when there is no width |
| `QuadFit.Scored` | client/app/items/faceFind.ts:164-172 | The score is defined for any piece with something in it, from nothing to one, and one exactly when the two are the same cells |
| `FaceFind.QuadOnHull` | client/app/items/faceFind.ts:202-204 | The quad found on the hull of a piece has its corners on pixel corners and turns at all four |
| `FaceFind.CandidateAt` | client/app/items/faceFind.ts:199-204 | One outline becomes a candidate exactly when its share and score are in range; no hull is without its quad, and the fit describes it |
| `FaceFind.Highest` | client/app/items/faceFind.ts:227-231 | The reduction picks the highest, and the first of equals |
| `FaceFind.FaceLike` | client/app/items/faceFind.ts:228-228 | Those described well enough, and no others |
| `FaceFind.FaceLikeInOrder` | client/app/items/faceFind.ts:228-228 | The filter keeps order and repeats: each that is kept has as many before it as were kept before it |
| `FaceFind.Choose` | client/app/items/faceFind.ts:227-231 | Among those that fit, one of the largest share; among none, one of the greatest sureness; nothing only of none |
| `FaceFind.ChooseInNumbers` | client/app/items/faceFind.ts:222-231 | A fit of 0.9 is enough to be chosen by share; else the product of fit and score tells |
| `FaceFind.ChooseTakesTheFirst` | client/app/items/faceFind.ts:227-231 | Of those that fit, the first of the largest; when none does, the first of the best described |
| `Cut.IsFace` | client/app/items/cut.ts:50-58 | The loop accepts exactly four clockwise turns about an area of 0.01 or more |
| `Cut.AreaByTriangles` | client/app/items/cut.ts:50-58 | The area the guard compares is that of the two triangles on a diagonal |
| `Cut.RectangleIsAFace` | client/app/items/cut.ts:50-58 | An upright rectangle is a face exactly when it covers a hundredth |
| `Cut.TurnedIsStillAFace` | client/app/items/cut.ts:40-43 | Renaming the corners keeps the guard's answer, and four renamings are none |
| `Cut.CornersRoundTrip` | client/app/items/cut.ts:28-38 | The eight numbers and the corners undo each other, both ways |
| `Cut.GuardMakesTheMap` | client/app/items/cut.ts:123-138 | For every face the determinant is the far corner's turn, not zero, and the map's parts are turns |
| `Cut.ProjectsOntoTheFace` | client/app/items/cut.ts:123-143 | Over the whole unit square the denominator is positive and the point is a weighted mean of the face's corners |
| `Cut.CornersOnCorners` | client/app/items/cut.ts:117-143 | The unit corners go to the four corners of the face, in order |
| `Cut.StaysInside` | client/app/items/cut.ts:117-143 | Every point of the square falls on the inner side of all four edges |
| `Cut.StraightStaysStraight` | client/app/items/cut.ts:117-143 | Straight lines stay straight with their points in order, as a camera's do |
| `Cut.NoTwoReadAsOne` | client/app/items/cut.ts:117-143 | No two points of the straightened face are read from one point |
| `Onto.EveryPointIsRead` | client/app/items/cut.ts:117-143 | Every point on the inner side of all four edges is the image of a point of the unit square, and of no other |
| `Clamped.KeptBetween` | client/app/items/cut.ts:157-175 | A clamped array keeps what is between two bytes between them, and a byte as it is |
| `Clamped.KeptNearest` | client/app/items/cut.ts:157-175 | No byte is nearer the number than the one kept; of two as near it is the even one |
| `Straighten.OnThePhotograph` | client/app/items/cut.ts:164-168 | The four pixels read are always on the photograph |
| `Straighten.HeldNearest` | client/app/items/cut.ts:164-165 | No place on the photograph is nearer to where the map says than the one read |
| `Straighten.StraightenFace` | client/app/items/cut.ts:156-180 | Wherever the map has a value at every pixel's middle, every channel of every pixel is the blend at the place it says; of a photograph with no pixels, all nothing; what is blended is `Straighten.BlendedIsBilinear`'s |
| `Straighten.FaceIsMapped` | client/app/items/cut.ts:123-143 | For every face the map has a value at every pixel's middle, whatever the sizes |
| `Straighten.BlendChannel` | client/app/items/cut.ts:166-175 | The offsets into the array read the four pixels round the point, blended as `Straighten.BlendedIsBilinear` says |
| `Straighten.BlendedIsBilinear` | client/app/items/cut.ts:166-175 | When a channel is any bilinear function of place over the four pixels round a point, what is blended is that function at the point |
| `Straighten.BetweenTheFour` | client/app/items/cut.ts:172-176 | Each channel is between those of the four pixels it blends |
| `Straighten.WholeIsAFace` | client/app/items/cut.ts:17-18 | The whole photograph's corners pass the guard |
| `Straighten.WholeMap` | client/app/items/cut.ts:123-143 | With them the map reads straight across and down, and turned, straight down and across |
| `Straighten.ReadAcross` | client/app/items/cut.ts:162-176 | Read straight across, every pixel is itself |
| `Straighten.ReadDown` | client/app/items/cut.ts:162-176 | Read from a quarter turn on, every pixel is where a quarter turn clockwise puts it |
| `Straighten.WholeIsItself` | client/app/items/cut.ts:156-180 | A photograph straightened whole at its own size is itself, to the byte |
| `Frames.FrameReader.Push` | client/domain/changes.ts:34-61 | The frames a piece of text completes and what is left in the buffer, in which no blank line is left |
| `Frames.ParseBlock` | client/domain/changes.ts:40-58 | One block, line by line: comments and other fields passed over, one space after the colon dropped, an event alone still a frame |
| `Frames.LineSays` | client/domain/changes.ts:43-57 | A field's line with a space after its colon, without, or with no colon: an event replaces, data is added, any other field, a comment or a blank line is passed over |
| `Frames.DataAlone` | client/domain/changes.ts:40-58 | Data alone is a frame of the event named message; any other field alone is none |
| `Frames.BlankLine` | client/domain/changes.ts:37-37 | The first blank line, or none |
| `Frames.ReadOn` | client/domain/changes.ts:34-61 | Reading a text and then what follows it is reading them together |
| `Frames.HoweverCut` | client/domain/changes.ts:30-61 | For every way of cutting a text, the pushes give what one push of the whole gives, and leave the same |
| `Frames.PushAll` | client/domain/changes.ts:163-163 | A reader pushed piece after piece, as the connection does |
| `Frames.ReadPrinted` | client/domain/changes.ts:34-61 | Frames printed as an event line, a line for each line of data and a blank line, comments between them or not, read back in order (section 9.2 of the WHATWG HTML standard, for this reader) |
| `Frames.PrintedAndPushed` | client/domain/changes.ts:30-61 | And so through the reader, cut anywhere |
| `ChannelRuns.NextKeeps` | client/domain/changes.ts:108-211 | Every step keeps the channel's invariant and leaves no owed change without a way to be told |
| `ChannelRuns.DeliverKeeps` | client/domain/changes.ts:160-179 | A chunk and the loop it wakes keep it, and a hello after the first schedules a settle |
| `ChannelRuns.EveryRunGood` | client/domain/changes.ts:88-222 | Over every run, stale connections included: off with nothing pending when nobody listens, else exactly one of a connection and a retry; polling just while the interval runs; live only on a connection that said hello |
| `ChannelRuns.FromTheStart` | client/domain/changes.ts:88-105 | So from a new channel |
| `Superseded.AsIfItHadNeverBeen` | client/domain/changes.ts:143-185 | Over any run from where a connection has been given up, the channel is and hears what it would with that connection never made: its chunks, its end and its wait change nothing but itself |
| `ChannelRuns.HeardExactlyAfterHello` | client/domain/changes.ts:171-176 | A change is sure to be heard, whatever happens next, exactly when the subscription has had its first hello |
| `ChannelRuns.LostBeforeTheFirstHello` | client/domain/changes.ts:171-174 | Without one there is a run that ends live with the change unread and nothing to bring it |
| `ChannelSteps.NudgeTries` | client/domain/changes.ts:121-130 | A nudge while polling asks for a connection never there before, not given up, in place of any wait, with no failures counted; live or connecting, everything is left as it is |
| `ChannelSteps.ConnectsExactly` | client/domain/changes.ts:108-196 | A connection is asked for exactly by the first listener, by a nudge while polling, and by a wait that is over; it is then the current one and the last is given up |
| `ChannelSteps.SubscribeWhere` | client/domain/changes.ts:108-110 | To one more listener nothing else changes; the first connects |
| `ChannelSteps.UnsubscribeWhere` | client/domain/changes.ts:111-141 | The last to stop listening leaves no timer pending, every connection given up and no hello remembered; before that nothing else changes |
| `ChannelSteps.EndWhere` | client/domain/changes.ts:185-196 | After the current connection's end a wait is pending; it says connecting after a hello, and without one it polls, an interval runs and a failure is counted |
| `ChannelSteps.FailuresCounted` | client/domain/changes.ts:124-196 | Endings without a hello are counted one after another, begun again by a hello, a nudge that tries again, and when nobody is left |
| `ChannelSteps.DeliverWhere` | client/domain/changes.ts:162-178 | A hello makes it live, stops the interval and counts no failures; a change, or a hello after another, has a settle pending; nothing else does |
| `ChannelSteps.FireWhere` | client/domain/changes.ts:199-211 | A settle is gone when it goes off and a poll comes again, each telling; a wait that is over asks for a connection |
| `Channel.Channel.constructor` | client/domain/changes.ts:102-105 | A new channel is the machine's start |
| `Channel.Channel.Subscribes` | client/domain/changes.ts:108-110 | Subscribing is the machine's step: the first listener connects |
| `Channel.Channel.Unsubscribes` | client/domain/changes.ts:111-114 | Stopping listening is its step: the last one stops the channel |
| `Channel.Channel.Nudges` | client/domain/changes.ts:121-130 | A nudge is the machine's step, which `ChannelSteps.NudgeTries` describes; whoever listens is told |
| `Channel.Channel.Stops` | client/domain/changes.ts:132-141 | Stopping gives up the connection, clears every timer and forgets the hello |
| `Channel.Channel.Connects` | client/domain/changes.ts:143-152 | Connecting gives up what went before, and shows polling while it still does |
| `Channel.Channel.Reads` | client/domain/changes.ts:160-179 | A chunk's whole frames are heard one by one, in order, as the machine's step |
| `Stream.ReadsPiece` | client/domain/changes.ts:160-179 | One read: its text is pushed through the reader, and exactly the frames it completes are heard |
| `Stream.HeardHoweverCut` | client/domain/changes.ts:30-61 | For every cutting of a text into pieces, read one by one, the channel ends as hearing the frames of the whole |
| `Stream.HeardAsPrinted` | client/domain/changes.ts:160-179 | What a server prints, comments included and cut anywhere, is heard as its frames delivered whole |
| `Stream.HeardByItsName` | client/domain/changes.ts:163-178 | A frame printed, cut anywhere and heard: `hello` makes the channel live, `changed` has it settle, any other name does nothing |
| `Channel.Channel.Hears` | client/domain/changes.ts:163-178 | One frame: a hello makes it live and settles after the first, a change settles |
| `Channel.Channel.Ended` | client/domain/changes.ts:180-197 | The end of a connection: nothing if superseded, else straight back after a hello and polling without one |
| `Channel.Channel.Polls` | client/domain/changes.ts:199-203 | The interval is started once |
| `Channel.Channel.Settles` | client/domain/changes.ts:205-211 | A settle is scheduled once |
| `Channel.Channel.Tells` | client/domain/changes.ts:213-221 | Everyone listening is called once, and nobody else; nothing is owed then |
| `Channel.Channel.TimerFires` | client/domain/changes.ts:191-210 | A settle, poll or retry going off is the machine's step |
| `Channel.Channel.QuietFires` | client/domain/changes.ts:150-150 | So is the wait for a hello running out |
| `Entries.Find` | client/domain/outbox.ts:109-109 | The first entry under a key, or none |
| `Entries.PutKeeps` | client/domain/outbox.ts:107-113 | Putting keeps each key once and in its place, and touches no other entry |
| `Entries.UpdateKeeps` | client/domain/outbox.ts:119-125 | Updating does too, and brings nothing back |
| `Entries.DropKeeps` | client/domain/outbox.ts:128-132 | Dropping takes that key and no other |
| `Entries.DropOrderKept` | client/domain/outbox.ts:131-131 | And leaves the rest in order |
| `Entries.RefuseKeeps` | client/domain/outbox.ts:134-136 | Refusing marks that key and no other |
| `OutboxRuns.AdvanceSends` | client/domain/outbox.ts:170-175 | A drain's next send is its owner's own act, not refused, not being pressed, with one of its key stored that is not refused; it is the first of the list that is so, and there is none only when every one fails one of those |
| `Drains.NeverSentAsAnotherFromTheStart` | client/domain/outbox.ts:167-175 | Over every run from an empty store, in any number of tabs, what a drain is sending is its own owner's |
| `Drains.RefusedIsShown` | client/domain/outbox.ts:178-180 | A refused act stays, says why and is not gone on to; the rest are as they were; without an answer nothing changes and the drain stops |
| `Drains.RefusedExactly` | client/domain/outbox.ts:48-52 | No answer and the statuses 0, 401, 408, 425, 429 and from 500 leave an act waiting; any other refuses it |
| `Drains.DrainTakesAll` | client/domain/outbox.ts:167-188 | A drain left to itself, every reply landed, takes every waiting act of its owner's off the device, but for those being pressed, and leaves every other |
| `OutboxRuns.StepKeeps` | client/domain/outbox.ts:107-212 | Every step keeps keys unique and in order, entries true of their acts, the ledger one record to an id, every act kept accounted for and every act landed whole on the ledger; an act leaves exactly when it landed, was refused to its own press, or was let go by the person |
| `OutboxRuns.StepIsTruthful` | client/domain/outbox.ts:115-125 | No entry, copy or list ever holds an id that was not minted for its act under that name, or counts a write as landed that the ledger has not under each of its names |
| `OutboxRuns.LandedIsRecorded` | client/app/outbound/pack/writes.ts:196-208 | A send that lands has a record on the server's ledger under every name of every write of its act: those it counted before and those answered since |
| `OutboxRuns.NothingLost` | client/domain/outbox.ts:107-212 | Over every interleaving in any number of tabs, with crashes and reloads, every act ever kept is still stored, or landed with a record under every name of every write it was sent with, or was refused to its press, or was let go by the person |
| `OutboxRuns.NothingLostFromTheStart` | client/domain/outbox.ts:85-227 | So from an empty store |
| `WholeActs.WhollyRecorded` | client/app/outbound/pack/writes.ts:196-208 | Over every such run from an empty store, an act always kept with the same writes is stored, or every name of every one of those writes has a record, or it was refused to its press, or let go |
| `OutboxRuns.SurvivorsKeepTheirPlaces` | client/domain/outbox.ts:106-136 | Two keys stored throughout a run are in the same order at its end |
| `Outbox.Outbox.constructor` | client/domain/outbox.ts:85-94 | A new outbox on a store is a tab that has done nothing |
| `Outbox.Outbox.Put` | client/domain/outbox.ts:107-113 | The store after a put; and the step of the world that puts it, for every world this tab shows |
| `Outbox.Outbox.Update` | client/domain/outbox.ts:119-125 | The store after an update, and the world's step |
| `Outbox.Outbox.Drop` | client/domain/outbox.ts:128-132 | The filter loop leaves the rest, in order, and the world's step is a dismissal |
| `Outbox.Outbox.Refuse` | client/domain/outbox.ts:134-136 | That key's act is marked with the reason; every key stays stored, every other act is as it was, in the same order, and no key comes twice |
| `Outbox.Outbox.DrainBegins` | client/domain/outbox.ts:167-175 | A drain's first stretch is the world's step, a second drain does nothing, and nothing is written; what it sends is its owner's own waiting act |
| `Outbox.Outbox.DrainOn` | client/domain/outbox.ts:170-175 | The loop over the list read at first goes on to the next act it sends |
| `Outbox.Outbox.DrainGoesOn` | client/domain/outbox.ts:174-185 | A reply: landed drops and goes on, refused marks and goes on, no answer ends it; what it goes on to is its owner's own waiting act |
| `Outbox.Outbox.PressBegins` | client/domain/outbox.ts:196-200 | A press marks its key and keeps its act before it sends |
| `Outbox.Outbox.PressEnds` | client/domain/outbox.ts:200-212 | Landed or refused it leaves, and only a refusal is shown; without an answer it stays |
| `Outbox.Outbox.IdFor` | client/domain/acts.ts:144-156 | An id once minted is answered the same; a new one is in the store before it is handed out, and asking for it is the world's step |
| `Outbox.Outbox.CountLanded` | client/app/outbound/pack/writes.ts:203-206 | A write answered is counted in the copy and in the store, as the world's step |
| `Acts.Act.constructor` | client/domain/acts.ts:119-121 | A fresh act has no ids, and its moment is read once |
| `Acts.Act.Id` | client/domain/acts.ts:123-129 | One id to a name, minted the first time |
| `Acts.AskedTwice` | client/domain/acts.ts:119-132 | A name asked for, then any number of others, then again, gets the same id |
| `Acts.Pressing.Attempt` | client/domain/acts.ts:184-190 | The same key is the same act until it lands, and a fresh one after |
| `Acts.Pressing.Landed` | client/domain/acts.ts:191-193 | That key's act is let go, and no other |
| `Acts.PartsApart` | client/domain/acts.ts:168-170 | Two parts' names can be the same exactly when one part goes on from the other by a colon |
| `Acts.PartsThatCollide` | client/domain/acts.ts:168-170 | Two parts and names that come out as one name |
| `ExactlyOnce.SafeExactlyWhenItKnows` | client/domain/acts.ts:144-156 | A send keeps one id to a name, whatever it goes on to ask for, exactly when its copy knows all that was asked for |
| `ExactlyOnce.StepsCarefully` | client/domain/outbox.ts:107-212 | A step by somebody who knows what was asked for, putting and pressing again and a send's own updates included, keeps every send knowing and alone |
| `ExactlyOnce.OnceOverEveryCarefulRun` | client/domain/acts.ts:133-156 | Over every such run in any number of tabs, with retries, lost replies, crashes and reloads, every request for an act under a name has the same id and moment, and the ledger one record |
| `ExactlyOnce.OneRecordPerName` | client/domain/acts.ts:1-20 | Over every run from an empty store, if a name of an act was requested under one id alone, however often, the ledger has at most one record of it |
| `ExactlyOnce.StartIsTrusted` | client/domain/outbox.ts:85-94 | The start has nothing to distrust |
| `SafeRuns.BehindKnowsExactly` | client/domain/acts.ts:144-156 | A copy read earlier, of an act that has since only been added to, knows all that was asked for exactly when it has the act's ids |
| `SafeRuns.TwoSendersUnsafe` | client/domain/outbox.ts:155-158 | Two sends of one act at once can each mint an id for a name new to both |
| `SafeRuns.PressedAlone` | client/domain/outbox.ts:196-200 | What a press sends is stored as it is pressed, so it is safe exactly when nobody is sending that act |
| `SafeRuns.NextSendSafeExactly` | client/domain/outbox.ts:170-200 | Where everything is sound, any step leaves it safe exactly when what it starts sending is stored with the ids it is sent with, and nobody else is sending it |
| `SafeRuns.SafeExactly` | client/domain/outbox.ts:162-212 | Over every run from an empty store, in any number of tabs, in which an act put or pressed again has the ids it had: no two requests the sends under way may make next can ever give one name two ids, exactly when each drain only goes on to entries stored with the ids it read, and drains and presses only begin what nobody else is sending |
| `SafeRuns.OnceThroughout` | client/domain/acts.ts:133-156 | Such a run ends with one id to a name, and at most one record of it on the ledger |
| `OneTab.HereStays` | client/domain/outbox.ts:196-212 | Every step in one tab keeps every send in it, its presses marked: what the theorems about one tab rest on holds over its runs |
| `OneTab.AloneInOneTab` | client/domain/outbox.ts:155-171 | A drain leaves its own tab's presses to themselves |
| `OneTab.SentIfSending` | client/domain/outbox.ts:215-217 | In one tab nobody is sending an act exactly when its key is not among those pressed, nor its drain's |
| `OneTab.FirstIsStored` | client/domain/outbox.ts:167-175 | The first act a drain sends is as it is stored |
| `OneTab.OnlyStaleFails` | client/domain/outbox.ts:170-200 | In one tab what a step starts sending is stored with its ids and sent by nobody else exactly when a drain goes on to an entry stored with the ids it read, and a press is of an act the tab is not sending |
| `OneTab.SafeExactlyInOneTab` | client/domain/outbox.ts:162-212 | Over every run in one tab from an empty store: safe throughout exactly when the drain only goes on to entries stored with the ids it read, and presses are only of acts neither pressed nor on the drain's way |
| `StaleDrain.RecordsItTwice` | client/domain/outbox.ts:170-181 | A run in one tab, each step allowed and each send going write by write as the bench's does, whose ledger ends with two records of one write of one press |
| `MultiWrite.Server.Send` | client/domain/api.ts:320-337 | One request: recorded once by its name, or not, and answered or not |
| `MultiWrite.FurtherOfTwo` | client/domain/acts.ts:20-34 | One attempt after another leaves what the further of them would have left alone |
| `MultiWrite.RecordsAFirstPart` | client/domain/api.ts:513-524 | However its requests come out, an attempt records a first part of its writes, and all if none fails |
| `MultiWrite.ResumedIsUninterrupted` | client/domain/api.ts:516-518 | Stopped after any write any number of times, and then run to its end, an act leaves the ledger of one uninterrupted run |
| `MultiWrite.EachItsOwnExactlyWhenNamedApart` | client/domain/acts.ts:158-170 | Each write adds a record of its own, as made, exactly when no two share a name and none was there |
| `TakeOut.TakeOut` | client/domain/api.ts:506-527 | The loop makes the plan's corrections in order, stops at the first failure, and throws when some are left |
| `TakeOut.TakenByAFirstPart` | client/domain/api.ts:512-526 | A first part of the corrections takes no more of a pick than it has, and no more than was asked |
| `TakeOut.NeverTooMuchTakenOut` | client/domain/api.ts:498-527 | Through any attempts, over distinct movements: never more of a pick than it has, never more than was asked or there was |
| `TakeOut.TakesOutWhatWasAsked` | client/domain/api.ts:498-527 | Once an attempt is answered throughout, exactly the lesser of what was asked and what there was; it throws a 409, which is not tried again, exactly when short |
| `TakeOut.ReversedForItsReason` | client/domain/api.ts:516-524 | Whatever is recorded of a pick, through any attempts, reverses that movement for the reason given |
| `TakeOut.TakenInTurnThroughout` | client/domain/api.ts:512-526 | Through any attempts picks are taken from in the order given: one is touched only when all before it are taken whole |
| `Sorting.SortedSorts` | client/domain/api.ts:580-580 | The library's sort: the same ones, in order |
| `Sorting.SortedStays` | client/domain/api.ts:580-580 | And those with equal keys stay in order |
| `Despatch.MostLinesComeFirst` | client/domain/api.ts:578-580 | What is inside goes most lines first, all of it, equals as given |
| `Despatch.DespatchCarton` | client/domain/api.ts:567-604 | The recursion and its loops make the plan's writes in order and stop at the first failure; an empty carton throws |
| `Despatch.WhatLeaves` | client/domain/api.ts:567-604 | The writes are those of the carton and of everything on it that has not left, each line's with its own quantity or the package's own when it has none, and no others; an empty carton's are none and it throws |
| `Despatch.LeftWithItsQuantities` | client/domain/api.ts:567-604 | Once answered throughout, after any attempts, the ledger has each line of each package that left, with its own quantity |
| `Despatch.DespatchesItself` | client/domain/api.ts:342-347 | A package with nothing of its own leaves by one write, named by it |
| `Despatch.DespatchesLines` | client/domain/api.ts:590-603 | One write a line, named by carton and line |
| `Despatch.LinesApart` | client/domain/api.ts:594-600 | A carton's lines are named apart exactly when none is on it twice |
| `Despatch.DespatchNamedApart` | client/domain/api.ts:567-604 | Packages each named once, with each line once, give every write a name of its own |
| `Despatch.LoadLeavesFirst` | client/domain/api.ts:570-585 | Through any attempts, nothing of the carton's own is recorded before everything on it is |
| `Picks.Pick` | client/domain/api.ts:1496-1527 | The claim, its failure thrown or passed over, and the pick |
| `Picks.NeverWithoutItsClaim` | client/domain/api.ts:1491-1494 | At the shelf, through any attempts, no pick is recorded without its claim |
| `Picks.PickedOnce` | client/domain/api.ts:1485-1488 | Once a press lands the pick is recorded once with its claim; from the outbox, perhaps without |
| `Picks.RecordedAsPressed` | client/domain/api.ts:1496-1527 | What a landed press leaves recorded: the pick of as many as were picked, where they were put and when, and any claim of as many as it was to claim |
| `Picks.RecordedExactly` | client/domain/api.ts:1485-1494 | After any number of attempts the pick is on the ledger exactly when it was before or the answers of one attempt let it be: its claim answered, or passed over from the outbox unless turned away for now, and the pick received |
| `FillGaps.Fill` | client/app/items/round.ts:658-697 | In place, at any size, the recursion ends with the picture filled |
| `FillGaps.Halve` | client/app/items/round.ts:661-686 | The half-size picture: each pixel's mean over its seen children, and which have any |
| `Siblings.SmallIsTheirMean` | client/app/items/round.ts:666-686 | A pixel of the half-size picture is seen when any of its four was, and then has their plain mean |
| `FillGaps.BringUp` | client/app/items/round.ts:688-696 | What was not seen takes its parent's channels |
| `FillGaps.ChildOfItsParent` | client/app/items/round.ts:670-671 | A seen pixel is one of the four its parent stands for, edges and odd sizes included |
| `FillGaps.SeenStays` | client/app/items/round.ts:653-660 | Every seen pixel stays as it was; the others become opaque; with none seen nothing changes |
| `FillGaps.FilledBetween` | client/app/items/round.ts:653-697 | With any seen, every pixel's channels are between the least and the most over the seen |
| `Siblings.FilledFrom` | client/app/items/round.ts:658-696 | An unseen pixel gets the rounded mean of the seen among its own four, or, with none, what the half-size picture's pixel for them is filled with |
| `Layers.MoveRound` | client/app/items/round.ts:612-622 | Moved however far, each pixel gets what is read for it, nothing outside the array; up to eight times round, or with one column, that is the layer moved round |
| `Layers.OnTheRowExactly` | client/app/items/round.ts:616-616 | Every column is read from its own row exactly when it is moved at most eight times round, or there is one |
| `Layers.ReadOffTheRow` | client/app/items/round.ts:616-616 | Two columns moved seventeen round read column minus one |
| `Layers.ReadBeforeTheArray` | client/app/items/round.ts:616-618 | A pixel read from just before the array has no weight and no colour, and from further before it the colour as far before the end |
| `Layers.ShiftsAdd` | client/app/items/round.ts:611-622 | Moved twice is moved by both |
| `Layers.RightRoundIsItself` | client/app/items/round.ts:611-622 | Moved right round is not moved |
| `Layers.ShiftedBack` | client/app/items/round.ts:611-622 | Moved back is as it was |
| `Balance.GoesAlongItsRow` | client/app/items/round.ts:611-622 | Moved, a pixel is so many columns further along its row, coming in again at its start |
| `Layers.Blend` | client/app/items/round.ts:700-725 | Each pixel the mean by trust and gain of the layers that saw it, and the rest filled; the mean is the one `Balance.BlendBalances` describes |
| `Balance.SeenBySome` | client/app/items/round.ts:707-722 | A pixel is seen exactly when some layer has weight there |
| `Balance.BlendBalances` | client/app/items/round.ts:705-721 | A channel of a seen pixel is the byte nearest the one number at which the layers balance, each pulling by its weight towards its own gained colour |
| `Balance.LaidAsTwo` | client/app/items/round.ts:705-721 | A layer laid as two of the same colour and gain, its weight shared between them, gives the same blend |
| `Balance.NothingSeen` | client/app/items/round.ts:700-725 | With nothing seen at all the blend is black and opaque |
| `Layers.BlendBetween` | client/app/items/round.ts:699-725 | With any seen, every pixel of a blend, filled ones too, is between the least and the most any layer lays |
| `LineUp.Search.TryFrom` | client/app/items/round.ts:571-587 | The backtracking leaves its stack as it found it, and the best as trying every way on from there makes it |
| `LineUp.TriedFromFinds` | client/app/items/round.ts:572-587 | What it finds from any shifts on is a ring as good as every one in range, better than those tried sooner |
| `LineUp.UsualIsOne` | client/app/items/round.ts:567-568 | The usual match is one of the curve's own, whenever it has one |
| `LineUp.UsualIsTheMiddle` | client/app/items/round.ts:567-568 | No more than half of a curve's own matches are less than the usual one, and more than half are no more |
| `LineUp.AlikeSaysNothing` | client/app/items/round.ts:561-570 | A curve that matches every shift alike says nothing of any, and a shift too far says nothing |
| `LineUp.RingBest` | client/app/items/round.ts:539-587 | It always finds a ring: within reach, summing to nothing, scoring at least as high as every other, and the first of equals |
| `LineUp.LineUpRing` | client/app/items/round.ts:565-591 | By how far each shift stands out, the layers are moved by the sums of the best ring; with no layers it throws |
| `LineUp.PlaceOfBest` | client/app/items/round.ts:555-555 | A pair alone: the best match, no shift if none is better, else the least |
| `LineUp.LineUpApart` | client/app/items/round.ts:550-560 | Not all round, each pair's own best, summed; the mean match, or nothing of one layer |
| `Minimise.Minimise` | client/app/items/round.ts:228-253 | The value is the function's at the point found, and no more than at the start or any step from it; in no dimensions a round throws; each round does what `Minimise.WhatIsPutIn` says |
| `Minimise.WhereItBegins` | client/app/items/round.ts:228-230 | The search begins at the start and at each point one step from it along one axis |
| `Minimise.RoundsJoin` | client/app/items/round.ts:231-249 | So many rounds and more are those and then more, and one is a round |
| `Minimise.OneRound` | client/app/items/round.ts:231-249 | The loop's body is one round, which `Minimise.OneOnTheLine` and `Minimise.WhatIsPutIn` describe |
| `Minimise.OneOnTheLine` | client/app/items/round.ts:235-243 | The points a round tries are, coordinate by coordinate, the one at each distance on the line from the worst corner through the mean of the others |
| `Minimise.SumsJoin` | client/app/items/round.ts:234-234 | A sum over corners is that over the first of them and that over the rest |
| `Minimise.SumOfOne` | client/app/items/round.ts:234-234 | And of one corner, that corner's own number |
| `Minimise.WhatIsPutIn` | client/app/items/round.ts:236-246 | By the function at those points alone: the reflection, or as far again, when better than the best; the reflection when better than the next worst; else the nearer point on the better side when that is better; else none |
| `Minimise.ShrunkIsMidway` | client/app/items/round.ts:246-246 | The corners of a round that found none are midway between where they were and the best, with the function's value there |
| `Minimise.RoundReplacesOrShrinks` | client/app/items/round.ts:232-249 | A round keeps a simplex with each corner's own value; it puts a strictly better corner for the worst and keeps the rest, or shrinks all but the best halfway to it |
| `Minimise.BestNeverUp` | client/app/items/round.ts:238-249 | The best value never goes up in a round |
| `Minimise.BestNeverUpOver` | client/app/items/round.ts:231-252 | Nor over any number of them |
| `Overlap.RunningCounts` | client/app/items/round.ts:188-201 | The running counts hold every row's count so far, and the area |
| `Overlap.CountsAStretch` | client/app/items/round.ts:187-201 | Two of them differ by what is between their columns |
| `Outline.CrossesWhenApart` | client/app/items/round.ts:212-212 | A side crosses a height exactly when one of its ends is above it and the other is not |
| `Outline.CrossingsAreEven` | client/app/items/round.ts:210-216 | An outline crosses any height an even number of times |
| `Outline.CrossedOnTheSide` | client/app/items/round.ts:210-214 | A crossing is the one place at that height on the line through the side's ends, and between them |
| `Outline.SpanIs` | client/app/items/round.ts:208-216 | The least and the most are of crossings, all crossings are between them, and there are none only when no side crosses |
| `Outline.CountedByItsMiddle` | client/app/items/round.ts:207-222 | A pixel is counted as the outline's exactly when its middle is past the least crossing of its row's middle and not past the most |
| `Outline.ScoreCounted` | client/app/items/round.ts:204-225 | The score is how many pixels are in the mask and the outline, over the mask's size and the outline's together, less those |
| `Outline.ShapeByRows` | client/app/items/round.ts:207-220 | A row adds to the outline's size what is between its outermost crossings |
| `Overlap.Overlap` | client/app/items/round.ts:204-225 | The fast score is the one counting every pixel gives |
| `Overlap.NothingExactlyWhenBothAreEmpty` | client/app/items/round.ts:224-224 | The score is nothing over nothing exactly for an empty mask and an outline over no row |
| `Overlap.AtMostOneExactly` | client/app/items/round.ts:203-225 | Of an outline over some row: the score is at most one against every mask exactly when the columns it is counted as are no more than its width over all its rows |
| `Overlap.OneExactlyWhenTheMaskIsTheOutline` | client/app/items/round.ts:203-225 | Of such an outline it is from nothing to one, and one exactly when its columns are just its width and the mask is the pixels it is counted as |
| `Overlap.MayScoreMoreThanOne` | client/app/items/round.ts:219-224 | An outline a fifth of a pixel wide scores five |
| `Percent.EscapesRead` | client/domain/routing.ts:112-118 | Escaped UTF-8 of any character reads back as it, of one octet to four |
| `Percent.Utf8Is` | client/domain/routing.ts:112-134 | A character's octets: as few as may be, the first saying how many, each other six bits (section 3 of RFC 3629) |
| `Percent.EscapeIs` | client/domain/routing.ts:121-134 | An octet is a percent sign and two upper-case digits, the high one first |
| `Percent.EncodesPlainly` | client/domain/routing.ts:121-134 | A character is left as it is exactly when it is an ASCII letter or digit or one of nine marks; any other has each octet escaped |
| `Percent.EncodeJoins` | client/domain/routing.ts:121-134 | Encoding goes character by character |
| `Percent.ReadExactly` | client/domain/routing.ts:112-118 | Escapes are read as a character exactly when they are its octets, all of them |
| `Percent.HexReadsEither` | client/domain/routing.ts:112-118 | A digit is read in either case |
| `Percent.CutShortIsNone` | client/domain/routing.ts:112-118 | An escape cut short, without digits, or of an octet that only follows, is not decoded |
| `Percent.OverlongIsNone` | client/domain/routing.ts:112-118 | Nor one of more octets than the character takes |
| `Percent.HalfAPairIsNone` | client/domain/routing.ts:112-118 | Nor one of half a surrogate pair |
| `Percent.LowerCaseIsRead` | client/domain/routing.ts:112-118 | Digits in lower case are read as well |
| `Percent.DecodeUndoes` | client/domain/routing.ts:112-134 | Decoding undoes encoding, for every string |
| `Percent.EncodeHasNoSlash` | client/domain/routing.ts:121-134 | Nothing encoded has a slash, and only nothing encodes as nothing |
| `Routing.SplitJoined` | client/domain/routing.ts:49-63 | Splitting gives back the parts that were joined |
| `Routing.NormaliseTwice` | client/domain/routing.ts:60-63 | Normalising again changes nothing |
| `Routing.NormalisedAlike` | client/domain/routing.ts:53-63 | Two paths normalise alike exactly when they have the same parts |
| `Routing.StripsWholeParts` | client/domain/routing.ts:72-78 | The prefix test on text strips exactly the base's parts, whole part by whole part, and leaves any other path |
| `Routing.MountedIs` | client/domain/routing.ts:80-86 | A path mounted is the base's parts and its own, each after one slash; with none of its own, a slash after the base |
| `Routing.StripUndoesWith` | client/domain/routing.ts:80-86 | Stripping a base undoes putting it on, for every base and path |
| `Routing.WithUndoesStrip` | client/domain/routing.ts:80-86 | And the other way, for a path under it |
| `Routing.CompiledIsValid` | client/domain/routing.ts:42-47 | A pattern's literals are whole parts |
| `Routing.CompiledIs` | client/domain/routing.ts:42-47 | A part that begins with a colon is a param named by the rest; any other is itself |
| `Routing.Match` | client/domain/routing.ts:95-110 | The loop draws the params of a path that matches, and nothing of one that does not |
| `Routing.MatchesExactly` | client/domain/routing.ts:95-118 | A path matches exactly when it has as many parts and each literal is its part to the letter; each param is its part decoded, or as written where that cannot be, the later of one name |
| `Routing.MatchUndoesBuild` | client/domain/routing.ts:95-137 | A built path gives back the pattern's own params exactly when none of them is empty |
| `Routing.EmptyParamIsLost` | client/domain/routing.ts:95-137 | A path built with an empty param does not match its own pattern |
| `Routing.MatchedBuildsBack` | client/domain/routing.ts:88-137 | Whatever a pattern draws from a path builds a path it draws the same from |
| `Routing.Resolve` | client/domain/routing.ts:152-161 | The first route in order that matches, or none when none does |

## Left out

- ExactlyOnce.OnceOverEveryCarefulRun: sufficient for runs in which whoever puts or presses may know more than the screens do; for runs pressed as the screens press, SafeRuns.SafeExactly is exact.
- SafeRuns.SafeExactly: an act put or pressed again is the act as it was last known, and an update is of a send's own copy, as the screens make them; acts put again with other ids, and updates of copies nobody is sending, are left out.
- OutboxRuns.NothingLost: a write's names are those its answer means records of, none for one that carries no id and not a claim that may be passed over; where the bench keeps an act pressed again under a new entry key the model sees its act's one key, and a press's entry holds the ids its act has minted.
- Outbox.Outbox.IdFor: an act's body is its ids, its moment, how far it got and its refusal; the rest of the body goes along unseen.
- ChannelRuns.EveryRunGood: a delivered chunk is its whole frames, of which only `hello` and `changed` are told apart; `Stream` reads them from text, and bytes become text elsewhere.
- Channel.Channel.Tells: in what order listeners are called, and what they read, is not modelled; one that throws is passed over like any other.
- Straighten.StraightenFace: corners whose map divides by zero at a pixel's middle, which no face's does; the infinities the code then works with are not modelled.
- LineUp.LineUpRing: how well two layers match at each shift is given; `matches` and its normalised correlation are not modelled.
- Layers.Blend: a weight that is no number, which a layer moved too far round can have, is not blended.
- Overlap.Overlap: the mask is yes or no per pixel, as its comment says, rather than any byte.
- Minimise.Minimise: the function minimised is any function to the reals; a value that is not a number is not modelled.
- Routing.MatchUndoesBuild: params are a map; names that are special on a JavaScript object are not modelled, and text is of whole Unicode characters, so encoding never throws.
- MultiWrite.Server.Send: how each request comes out is given, and the ledger takes a name it has as the act it has; what else the server decides is not modelled.
- The store is a register that returns what was last set: JSON, unreadable contents, full or blocked storage and the outbox's listeners are not modelled.
- Timers' lengths, backoff, and turning bytes into text.
- Rounding of floating point, and infinities in it.
- The model's input and outlines (`samInput`, `outline`, `wholesFrom`), naming corners from the top left by angle, and proportions (`aspectOf`, `lieOf`, `cutSize`), which are trigonometry, logarithms or foreign calls.
- Camera poses, unwrapping, creases, gains and ellipses in the round kernels, which rest on trigonometry.
- What a drain returns, how many still wait, and the callback that is given each reply.
- Screens, transports, sessions, the one-request calls and the server.
