/** The poller's new/added/deleted bookkeeping for channels, against the kernel's interest set. */
module EpollPoller {

  type Mask = bv8

  const NONE: Mask := 0
  const READ: Mask := 3
  const WRITE: Mask := 4

  datatype Index = New | Added | Deleted

  datatype Channel = Channel(events: Mask, index: Index)

  /** Live channels by descriptor, the poller's descriptor table, the kernel's interest set, and the
      number of `epoll_ctl` calls the kernel has refused. */
  datatype Books = Books(channels: map<int, Channel>, table: set<int>, kernel: map<int, Mask>, refused: nat)

  const EMPTY := Books(map[], {}, map[], 0)

  datatype Ctl = Add | Mod | Del

  /** The kernel: adding a present descriptor, or changing or deleting an absent one, is refused. */
  function EpollCtl(b: Books, ctl: Ctl, fd: int): Books
    requires fd in b.channels
  {
    if (ctl == Add) == (fd in b.kernel) then b.(refused := b.refused + 1)
    else if ctl == Del then b.(kernel := b.kernel - {fd})
    else b.(kernel := b.kernel[fd := b.channels[fd].events])
  }

  /** The kernel's rule: what was added is there until it is deleted, and a call on the wrong side of that
      changes nothing but the count of refusals. */
  lemma KernelRule(b: Books, ctl: Ctl, fd: int)
    requires fd in b.channels
    ensures var b' := EpollCtl(b, ctl, fd);
            if (ctl == Add && fd in b.kernel) || (ctl != Add && fd !in b.kernel)
            then b'.refused == b.refused + 1 && b'.kernel == b.kernel
            else b'.refused == b.refused && (fd in b'.kernel <==> ctl != Del)
  {
  }

  function SetIndex(b: Books, fd: int, index: Index): Books
    requires fd in b.channels
  {
    b.(channels := b.channels[fd := b.channels[fd].(index := index)])
  }

  function UpdateChannel(b: Books, fd: int): Books
    requires fd in b.channels
  {
    var c := b.channels[fd];
    if c.index != Added then
      var b := if c.index == New then b.(table := b.table + {fd}) else b;
      EpollCtl(SetIndex(b, fd, Added), Add, fd)
    else if c.events == NONE then SetIndex(EpollCtl(b, Del, fd), fd, Deleted)
    else EpollCtl(b, Mod, fd)
  }

  function RemoveChannel(b: Books, fd: int): Books
    requires fd in b.channels
  {
    var b := b.(table := b.table - {fd});
    SetIndex(if b.channels[fd].index == Added then EpollCtl(b, Del, fd) else b, fd, New)
  }

  datatype Change = EnableReading | DisableReading | EnableWriting | DisableWriting | DisableAll

  function NewMask(m: Mask, change: Change): Mask {
    match change
    case EnableReading => m | READ
    case DisableReading => m & !READ
    case EnableWriting => m | WRITE
    case DisableWriting => m & !WRITE
    case DisableAll => NONE
  }

  predicate IsReading(m: Mask) {
    m & READ != 0
  }

  predicate IsWriting(m: Mask) {
    m & WRITE != 0
  }

  /** Each call sets or clears its own interest and leaves the other bits as they were. */
  lemma MaskChanges(m: Mask)
    ensures IsReading(NewMask(m, EnableReading)) && !IsReading(NewMask(m, DisableReading))
    ensures IsWriting(NewMask(m, EnableWriting)) && !IsWriting(NewMask(m, DisableWriting))
    ensures NewMask(m, EnableReading) & !READ == NewMask(m, DisableReading) & !READ == m & !READ
    ensures NewMask(m, EnableWriting) & !WRITE == NewMask(m, DisableWriting) & !WRITE == m & !WRITE
    ensures !IsReading(NewMask(m, DisableAll)) && !IsWriting(NewMask(m, DisableAll))
  {
  }

  /** An enable or disable call on a channel: the mask changes, then the poller is told. */
  function ChangeEvents(b: Books, fd: int, change: Change): Books
    requires fd in b.channels
  {
    var c := b.channels[fd];
    UpdateChannel(b.(channels := b.channels[fd := c.(events := NewMask(c.events, change))]), fd)
  }

  /** `Channel::remove`: disable everything, then leave the poller. */
  function Remove(b: Books, fd: int): Books
    requires fd in b.channels
  {
    RemoveChannel(ChangeEvents(b, fd, DisableAll), fd)
  }

  // ---------- Runs ----------

  /** Channels come and go; one is destroyed only after it was removed, and its descriptor may return. */
  datatype Op = Create(fd: int) | Change(fd: int, change: Change) | Take(fd: int) | Destroy(fd: int)

  predicate Enabled(b: Books, op: Op) {
    match op
    case Create(fd) => fd !in b.channels
    case Change(fd, _) => fd in b.channels
    case Take(fd) => fd in b.channels
    case Destroy(fd) => fd in b.channels && b.channels[fd].index == New
  }

  function Next(b: Books, op: Op): Books
    requires Enabled(b, op)
  {
    match op
    case Create(fd) => b.(channels := b.channels[fd := Channel(NONE, New)])
    case Change(fd, change) => ChangeEvents(b, fd, change)
    case Take(fd) => Remove(b, fd)
    case Destroy(fd) => b.(channels := b.channels - {fd})
  }

  ghost predicate Step(b: Books, op: Op, b': Books) {
    Enabled(b, op) && b' == Next(b, op)
  }

  ghost predicate IsRun(books: seq<Books>, ops: seq<Op>) {
    && |books| == |ops| + 1 && books[0] == EMPTY
    && forall i :: 0 <= i < |ops| ==> Step(books[i], ops[i], books[i + 1])
  }

  /** One descriptor's books agree: added exactly when the kernel watches it, with the same mask, and
      in the table exactly when not new. Descriptors without a live channel are nowhere. */
  ghost predicate Agrees(b: Books, fd: int) {
    && (fd in b.kernel <==> fd in b.channels && b.channels[fd].index == Added)
    && (fd in b.kernel ==> b.kernel[fd] == b.channels[fd].events)
    && (fd in b.table <==> fd in b.channels && b.channels[fd].index != New)
  }

  ghost predicate Inv(b: Books) {
    b.refused == 0 && forall fd :: Agrees(b, fd)
  }

  /** Whether read or write interest is on after a call, given whether it was before. */
  predicate ReadingAfter(change: Change, before: bool) {
    change == EnableReading || (before && change != DisableReading && change != DisableAll)
  }

  predicate WritingAfter(change: Change, before: bool) {
    change == EnableWriting || (before && change != DisableWriting && change != DisableAll)
  }

  /** A mask holds the read bits together, the write bit, and nothing else. */
  predicate HasInterest(m: Mask, reading: bool, writing: bool) {
    m == (if reading then 3 else 0) + (if writing then 4 else 0)
  }

  lemma MaskFollows(m: Mask, change: Change, reading: bool, writing: bool)
    requires HasInterest(m, reading, writing)
    ensures HasInterest(NewMask(m, change), ReadingAfter(change, reading), WritingAfter(change, writing))
  {
  }

  /** What a call does to its channel: the mask gains or loses the interest named, and the kernel watches
      the descriptor afterwards unless it did before and nothing is left to watch. */
  lemma ChangeEffect(b: Books, fd: int, change: Change, reading: bool, writing: bool)
    requires Inv(b) && fd in b.channels && HasInterest(b.channels[fd].events, reading, writing)
    ensures var b' := ChangeEvents(b, fd, change);
            && fd in b'.channels
            && HasInterest(b'.channels[fd].events, ReadingAfter(change, reading), WritingAfter(change, writing))
            && (fd in b'.kernel <==> fd !in b.kernel || b'.channels[fd].events != 0)
            && (fd in b'.kernel ==> b'.kernel[fd] == b'.channels[fd].events)
  {
    assert Agrees(b, fd);
    MaskFollows(b.channels[fd].events, change, reading, writing);
  }

  lemma ChangeKeeps(b: Books, fd: int, change: Change)
    requires Inv(b) && fd in b.channels
    ensures Inv(ChangeEvents(b, fd, change)) && ChangeEvents(b, fd, change).channels.Keys == b.channels.Keys
    ensures forall other :: other != fd && other in b.channels ==>
                              ChangeEvents(b, fd, change).channels[other] == b.channels[other]
  {
    var b' := ChangeEvents(b, fd, change);
    assert Agrees(b, fd);
    forall other
      ensures Agrees(b', other)
    {
      assert Agrees(b, other);
    }
  }

  lemma RemoveKeeps(b: Books, fd: int)
    requires Inv(b) && fd in b.channels
    ensures var b' := Remove(b, fd);
            && Inv(b') && b'.channels == b.channels[fd := Channel(NONE, New)]
            && fd !in b'.kernel && fd !in b'.table
  {
    ChangeKeeps(b, fd, DisableAll);
    var mid, b' := ChangeEvents(b, fd, DisableAll), Remove(b, fd);
    assert Agrees(mid, fd);
    forall other
      ensures Agrees(b', other)
    {
      assert Agrees(mid, other);
    }
  }

  lemma InvStep(b: Books, op: Op)
    requires Inv(b) && Enabled(b, op)
    ensures Inv(Next(b, op))
  {
    match op
    case Create(fd) =>
      forall other ensures Agrees(Next(b, op), other) { assert Agrees(b, other); }
    case Change(fd, change) => ChangeKeeps(b, fd, change);
    case Take(fd) => RemoveKeeps(b, fd);
    case Destroy(fd) =>
      forall other ensures Agrees(Next(b, op), other) { assert Agrees(b, other); }
  }

  /** At every point of every run over live channels with distinct descriptors, including repeated
      removes and reused descriptors, the books agree and the kernel has refused nothing. */
  lemma {:induction false} BooksAlwaysAgree(books: seq<Books>, ops: seq<Op>, k: nat)
    requires IsRun(books, ops) && k <= |ops|
    ensures Inv(books[k])
  {
    if k > 0 {
      BooksAlwaysAgree(books, ops, k - 1);
      assert Step(books[k - 1], ops[k - 1], books[k - 1 + 1]);
      InvStep(books[k - 1], ops[k - 1]);
    } else {
      forall fd ensures Agrees(EMPTY, fd) { }
    }
  }

  /** What the calls so far say about descriptor `fd`: whether it has a channel, whether the last call on
      its read and write interest was an enable, and whether the kernel watches it. */
  datatype Wanted = Wanted(live: bool, reading: bool, writing: bool, watched: bool)

  function After(x: Wanted, op: Op): Wanted {
    match op
    case Create(_) => Wanted(true, false, false, false)
    case Change(_, change) =>
      var reading, writing := ReadingAfter(change, x.reading), WritingAfter(change, x.writing);
      Wanted(true, reading, writing, !x.watched || reading || writing)
    case Take(_) => Wanted(true, false, false, false)
    case Destroy(_) => Wanted(false, false, false, false)
  }

  function WantedAfter(ops: seq<Op>, k: nat, fd: int): Wanted
    requires k <= |ops|
  {
    if k == 0 then Wanted(false, false, false, false)
    else if ops[k - 1].fd != fd then WantedAfter(ops, k - 1, fd)
    else After(WantedAfter(ops, k - 1, fd), ops[k - 1])
  }

  /** The books hold of `fd` what was asked for. */
  ghost predicate Holds(b: Books, fd: int, x: Wanted) {
    && (fd in b.channels <==> x.live) && (fd in b.kernel <==> x.watched)
    && (fd in b.channels ==> HasInterest(b.channels[fd].events, x.reading, x.writing))
    && (fd in b.kernel ==> HasInterest(b.kernel[fd], x.reading, x.writing))
  }

  lemma HoldsStep(b: Books, op: Op, b': Books, fd: int, x: Wanted)
    requires Inv(b) && Step(b, op, b') && Holds(b, fd, x)
    ensures Holds(b', fd, if op.fd == fd then After(x, op) else x)
  {
    InvStep(b, op);
    assert Agrees(b, fd) && Agrees(b', fd);
    match op
    case Change(_, change) =>
      if op.fd == fd {
        ChangeEffect(b, fd, change, x.reading, x.writing);
      } else {
        ChangeKeeps(b, op.fd, change);
      }
    case Take(_) => RemoveKeeps(b, op.fd);
    case _ =>
  }

  /** Over every run, for every descriptor: it has a channel, its mask and the kernel's entry have the read
      bits and the write bit, and the kernel watches it, exactly as the calls made so far say. */
  lemma {:induction false} MaskFollowsCalls(books: seq<Books>, ops: seq<Op>, k: nat, fd: int)
    requires IsRun(books, ops) && k <= |ops|
    ensures Holds(books[k], fd, WantedAfter(ops, k, fd))
  {
    if k > 0 {
      var p := k - 1;
      MaskFollowsCalls(books, ops, p, fd);
      BooksAlwaysAgree(books, ops, p);
      HoldsStep(books[p], ops[p], books[p + 1], fd, WantedAfter(ops, p, fd));
    }
  }

  /** Removing twice is removing once. */
  lemma RemoveIdempotent(b: Books, fd: int)
    requires Inv(b) && fd in b.channels
    ensures Remove(Remove(b, fd), fd) == Remove(b, fd)
  {
    var once := Remove(b, fd);
    RemoveKeeps(b, fd);
    RemoveKeeps(once, fd);
    var twice := Remove(once, fd);
    assert twice.channels == once.channels;
    forall other
      ensures Agrees(once, other) && Agrees(twice, other)
    {
    }
    assert twice.table == once.table;
    assert twice.kernel == once.kernel;
  }

  /** A quirk of the code: disabling all events on a channel the kernel does not watch registers it,
      with an empty mask. `disable_all` leaves the channel watched exactly when it was not before. */
  lemma DisableAllToggles(b: Books, fd: int)
    requires Inv(b) && fd in b.channels
    ensures fd in ChangeEvents(b, fd, DisableAll).kernel <==> fd !in b.kernel
  {
    assert Agrees(b, fd);
  }

  // ---------- The poller object ----------

  class Poller {
    var channels: map<int, Channel>
    var table: set<int>
    var kernel: map<int, Mask>
    var refused: nat

    ghost function View(): Books
      reads this
    {
      Books(channels, table, kernel, refused)
    }

    constructor ()
      ensures View() == EMPTY
    {
      channels, table, kernel, refused := map[], {}, map[], 0;
    }

    method Control(ctl: Ctl, fd: int)
      requires fd in channels
      modifies this`kernel, this`refused
      ensures View() == EpollCtl(old(View()), ctl, fd)
    {
      match ctl {
        case Add =>
          if fd in kernel { refused := refused + 1; } else { kernel := kernel[fd := channels[fd].events]; }
        case Mod =>
          if fd !in kernel { refused := refused + 1; } else { kernel := kernel[fd := channels[fd].events]; }
        case Del =>
          if fd !in kernel { refused := refused + 1; } else { kernel := kernel - {fd}; }
      }
    }

    method Update(fd: int)
      requires fd in channels
      modifies this
      ensures View() == UpdateChannel(old(View()), fd)
    {
      var index := channels[fd].index;
      if index == New || index == Deleted {
        if index == New {
          table := table + {fd};
        }
        channels := channels[fd := channels[fd].(index := Added)];
        Control(Add, fd);
      } else if channels[fd].events == NONE {
        Control(Del, fd);
        channels := channels[fd := channels[fd].(index := Deleted)];
      } else {
        Control(Mod, fd);
      }
    }

    method SetEvents(fd: int, change: Change)
      requires fd in channels
      modifies this
      ensures View() == ChangeEvents(old(View()), fd, change)
    {
      var c := channels[fd];
      channels := channels[fd := c.(events := NewMask(c.events, change))];
      Update(fd);
    }

    method RemoveFd(fd: int)
      requires fd in channels
      modifies this
      ensures View() == Remove(old(View()), fd)
    {
      SetEvents(fd, DisableAll);
      table := table - {fd};
      if channels[fd].index == Added {
        Control(Del, fd);
      }
      channels := channels[fd := channels[fd].(index := New)];
    }
  }
}
