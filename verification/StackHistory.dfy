/** Which StackWalk events are attached to which row, and which are still parked, as a function of the history. */
module StackHistory {
  import opened Wrappers
  import opened EtwEvents
  import opened EventIndex
  import opened StackParking
  import IrpHistory

  /** The parked stacks and the attachments made so far, in order; every other stack has been dropped. */
  datatype Book = Book(parked: Parked, attachments: seq<Attachment>)

  lemma RowsAtAreRows(h: seq<Event>, target: nat, settings: Settings, timestamp: int)
    ensures forall r :: r in RowsAt(h, target, settings, timestamp) ==> IsRow(h, target, settings, r)
  {
    forall r | r in RowsAt(h, target, settings, timestamp)
      ensures IsRow(h, target, settings, r)
    {
      RowsAtHoldsExactlyTheRowsOfItsTimestamp(h, target, settings, timestamp, r);
    }
  }

  /** The row that takes the stack, if one does. */
  function Taker(h: seq<Event>, target: nat, settings: Settings, stack: StackWalkEvent): Option<StackTarget> {
    RowsAtAreRows(h, target, settings, stack.timestamp);
    Chosen(h, target, settings, stack)
  }

  /** A full lot gives up its oldest timestamp before it takes a new one. */
  ghost function Room(parked: Parked, timestamp: int): Parked {
    if timestamp !in parked && |parked| >= MAX_PARKED_TIMESTAMPS && parked != map[]
    then parked - {Oldest(parked)} else parked
  }

  /** The parking lot after a stack that no row takes: foreign stacks stay out, and room is made at a price. */
  ghost function Parking(parked: Parked, stack: StackWalkEvent, target: nat): Parked {
    if stack.process != target then parked
    else
      var room := Room(parked, stack.timestamp);
      var pending := ParkedUnder(room, stack.timestamp);
      if |pending| >= MAX_PARKED_PER_TIMESTAMP then room else room[stack.timestamp := pending + [stack]]
  }

  /** Stacks older than the timestamp are given up. */
  function Pruned(parked: Parked, timestamp: int): Parked {
    map k | k in parked && timestamp <= k :: parked[k]
  }

  /** The stacks that find a row, each with its row. */
  function GivenTo(h: seq<Event>, target: nat, settings: Settings, stacks: seq<StackWalkEvent>): seq<Attachment> {
    if stacks == [] then []
    else
      var n := |stacks| - 1;
      var earlier := GivenTo(h, target, settings, stacks[..n]);
      if Taker(h, target, settings, stacks[n]).Some?
      then earlier + [Attachment(Taker(h, target, settings, stacks[n]).value, stacks[n])]
      else earlier
  }

  /** A row has been opened at the timestamp: the stacks parked for it are attached. */
  function TakenOut(h: seq<Event>, target: nat, settings: Settings, book: Book, timestamp: int): Book {
    Book(book.parked - {timestamp},
         book.attachments + GivenTo(h, target, settings, ParkedUnder(book.parked, timestamp)))
  }

  /** A stack arrives: a row takes it, or it is parked. */
  ghost function Arrived(h: seq<Event>, target: nat, settings: Settings, book: Book, stack: StackWalkEvent): Book {
    var row := Taker(h, target, settings, stack);
    if row.Some? then book.(attachments := book.attachments + [Attachment(row.value, stack)])
    else book.(parked := Parking(book.parked, stack, target))
  }

  /** The book after the whole history. */
  ghost function BookOf(h: seq<Event>, target: nat, settings: Settings): Book {
    if h == [] then Book(map[], [])
    else
      var before, e := h[..|h| - 1], h[|h| - 1];
      NextBook(before, target, settings, BookOf(before, target, settings), e)
  }

  /** What one event makes of the book, after the events `before`. */
  ghost function NextBook(before: seq<Event>, target: nat, settings: Settings, book: Book, e: Event): Book {
    var h := before + [e];
    match e
    case StackWalk(stack) => Arrived(h, target, settings, book, stack)
    case Lifecycle(l) =>
      if l.pid != target then book
      else
        var pruned := book.(parked := Pruned(book.parked, l.timestamp));
        if settings.process then TakenOut(h, target, settings, pruned, l.timestamp) else pruned
    case FileIo(f) =>
      if !IrpHistory.Accepted(FileIoEvents(before), target, f) then book
      else
        var pruned := book.(parked := Pruned(book.parked, f.timestamp));
        if IrpHistory.Opens(f, target) then TakenOut(h, target, settings, pruned, f.timestamp) else pruned
  }

  lemma BookStep(h: seq<Event>, target: nat, settings: Settings, e: Event)
    ensures BookOf(h + [e], target, settings) == NextBook(h, target, settings, BookOf(h, target, settings), e)
  {
    assert (h + [e])[..|h|] == h;
  }

  /** One more stack that finds a row. */
  lemma GivenToStep(h: seq<Event>, target: nat, settings: Settings, stacks: seq<StackWalkEvent>, i: nat)
    requires i < |stacks| && Taker(h, target, settings, stacks[i]).Some?
    ensures GivenTo(h, target, settings, stacks[..i + 1]) ==
      GivenTo(h, target, settings, stacks[..i]) + [Attachment(Taker(h, target, settings, stacks[i]).value, stacks[i])]
  {
    hide Taker;
    assert stacks[..i + 1][..i] == stacks[..i];
  }

  lemma BookOfStackWalk(h: seq<Event>, target: nat, settings: Settings, stack: StackWalkEvent)
    ensures BookOf(h + [StackWalk(stack)], target, settings) ==
      Arrived(h + [StackWalk(stack)], target, settings, BookOf(h, target, settings), stack)
  {
    hide Arrived;
    BookStep(h, target, settings, StackWalk(stack));
  }

  lemma BookOfLifecycle(h: seq<Event>, target: nat, settings: Settings, e: LifecycleEvent)
    ensures var book := BookOf(h, target, settings);
      BookOf(h + [Lifecycle(e)], target, settings) ==
        if e.pid != target then book
        else if settings.process
        then TakenOut(h + [Lifecycle(e)], target, settings,
          Book(Pruned(book.parked, e.timestamp), book.attachments), e.timestamp)
        else Book(Pruned(book.parked, e.timestamp), book.attachments)
  {
    hide TakenOut, Pruned;
    BookStep(h, target, settings, Lifecycle(e));
  }

  lemma BookOfFileIo(h: seq<Event>, target: nat, settings: Settings, e: FileIoEvent)
    ensures var book := BookOf(h, target, settings);
      BookOf(h + [FileIo(e)], target, settings) ==
        if !IrpHistory.Accepted(FileIoEvents(h), target, e) then book
        else if IrpHistory.Opens(e, target)
        then TakenOut(h + [FileIo(e)], target, settings,
          Book(Pruned(book.parked, e.timestamp), book.attachments), e.timestamp)
        else Book(Pruned(book.parked, e.timestamp), book.attachments)
  {
    hide TakenOut, Pruned, IrpHistory.Accepted;
    BookStep(h, target, settings, FileIo(e));
  }
}
