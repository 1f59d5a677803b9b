/** Fan-out of task events to the workflows' channels. Several workers offer events at once: each looks
    its event's workflow up, has the event in hand while the channel is full, and in the end sends it or
    puts it into a bounded backlog. A periodic flush sends, keeps, drops or discards what waits there,
    entry by entry, while all this goes on. Whether a channel accepts an event at a given moment is up to
    its consumer, and an input here. */
module EventBacklog {
  import opened Sequences

  datatype Event = Event(workflow: string, id: nat)

  datatype Entry = Entry(event: Event, addedAt: int)

  const MAX_BACKLOG_SIZE := 2048
  const MAX_AGE := 30_000_000_000 // nanoseconds

  /** A flush holds the backlog's lock from its clock reading to its end; the entries before pos have been
      looked at and kept, those from pos on are still to be looked at. */
  datatype Pass = Idle | At(pos: nat, now: int)

  /** sent lists what went into any channel, in order. offered, lost, discarded and reported are
      bookkeeping: events that came while their workflow was registered, events counted as dropped,
      events whose workflow had ended, and what earlier reports took off the counter. hand holds the
      workers' events between look-up and sending or parking, in the order they were looked up. */
  datatype Ledger = Ledger(
    registered: set<string>,
    hand: seq<Event>,
    sent: seq<Event>,
    backlog: seq<Entry>,
    pass: Pass,
    dropped: nat,
    offered: seq<Event>,
    lost: seq<Event>,
    discarded: seq<Event>,
    reported: nat)

  datatype Op =
    | Register(workflow: string)
    | Unregister(workflow: string)
    | Offer(event: Event)
    | Deliver(k: nat)        // the channel takes the k-th event in hand
    | Park(k: nat, now: int) // the k-th event in hand has timed out and goes into the backlog
    | BeginFlush(now: int)
    | Look(accepted: bool)   // at the next entry of the flush
    | EndFlush
    | Report

  const EMPTY := Ledger({}, [], [], [], Idle, 0, [], [], [], 0)

  /** An event of an unknown workflow is ignored. A channel takes events only while it is registered, and
      the backlog only while no flush holds it. */
  predicate Enabled(l: Ledger, op: Op) {
    match op
    case Offer(e) => e.workflow in l.registered
    case Deliver(k) => k < |l.hand| && l.hand[k].workflow in l.registered
    case Park(k, _) => k < |l.hand| && l.pass == Idle
    case BeginFlush(_) => l.pass == Idle
    case Look(_) => l.pass.At? && l.pass.pos < |l.backlog|
    case EndFlush => l.pass.At? && l.pass.pos == |l.backlog|
    case _ => true
  }

  /** What a look finds: whether the workflow is registered at that moment and its channel has room. */
  datatype Finding = Finding(registered: bool, accepted: bool)

  datatype Fate = Late | Ended | Sent | Kept

  function FateOf(e: Entry, f: Finding, now: int): Fate {
    if now - e.addedAt > MAX_AGE then Late
    else if !f.registered then Ended
    else if f.accepted then Sent
    else Kept
  }

  function Found(l: Ledger, accepted: bool): Finding
    requires Enabled(l, Look(accepted))
  {
    Finding(l.backlog[l.pass.pos].event.workflow in l.registered, accepted)
  }

  function AfterLook(l: Ledger, accepted: bool): Ledger
    requires Enabled(l, Look(accepted))
  {
    var e := l.backlog[l.pass.pos];
    var rest := l.(backlog := RemoveAt(l.backlog, l.pass.pos));
    match FateOf(e, Found(l, accepted), l.pass.now)
    case Late => rest.(dropped := l.dropped + 1, lost := l.lost + [e.event])
    case Ended => rest.(discarded := l.discarded + [e.event])
    case Sent => rest.(sent := l.sent + [e.event])
    case Kept => l.(pass := At(l.pass.pos + 1, l.pass.now))
  }

  function Apply(l: Ledger, op: Op): Ledger
    requires Enabled(l, op)
  {
    match op
    case Register(w) => l.(registered := l.registered + {w})
    case Unregister(w) => l.(registered := l.registered - {w})
    case Offer(e) => l.(offered := l.offered + [e], hand := l.hand + [e])
    case Deliver(k) => l.(hand := RemoveAt(l.hand, k), sent := l.sent + [l.hand[k]])
    case Park(k, now) =>
      var l' := l.(hand := RemoveAt(l.hand, k));
      if |l.backlog| < MAX_BACKLOG_SIZE then l'.(backlog := l.backlog + [Entry(l.hand[k], now)])
      else l'.(dropped := l.dropped + 1, lost := l.lost + [l.hand[k]])
    case BeginFlush(now) => l.(pass := At(0, now))
    case Look(accepted) => AfterLook(l, accepted)
    case EndFlush => l.(pass := Idle)
    case Report => l.(dropped := 0, reported := l.reported + l.dropped)
  }

  /** A run is its steps in order; a step that is not enabled when its turn comes changes nothing. */
  datatype Run = Start | Then(before: Run, op: Op)

  function End(r: Run): Ledger {
    match r
    case Start => EMPTY
    case Then(before, op) =>
      var l := End(before);
      if Enabled(l, op) then Apply(l, op) else l
  }

  /** The run goes on from p within the same flush. */
  ghost predicate DuringPass(p: Run, r: Run) {
    r == p || (r.Then? && DuringPass(p, r.before) && !r.op.BeginFlush? && !r.op.EndFlush?)
  }

  // ---------------------------------------------------------------- the dispatcher

  class WorkflowWatchers {
    var chans: set<string>
    var hand: seq<Event>
    var sent: seq<Event>
    var backlog: seq<Entry>
    var dropped: nat
    ghost var waiting: seq<Entry>
    ghost var pass: Pass
    ghost var offered: seq<Event>
    ghost var lost: seq<Event>
    ghost var discarded: seq<Event>
    ghost var reported: nat
    ghost var run: Run

    ghost function Value(): Ledger
      reads this
    {
      Ledger(chans, hand, sent, waiting, pass, dropped, offered, lost, discarded, reported)
    }

    /** The list is rebuilt at the end of a flush; nobody else can see it before. */
    ghost predicate Valid()
      reads this
    {
      Value() == End(run) && (pass == Idle ==> backlog == waiting)
    }

    constructor ()
      ensures Valid() && run == Start
    {
      chans, hand, sent, backlog, dropped := {}, [], [], [], 0;
      waiting, pass, offered, lost, discarded, reported := [], Idle, [], [], [], 0;
      run := Start;
    }

    /** Bookkeeping for a step whose effect on the channels, the sent events and the counter is done. */
    ghost method Settle(l: Ledger, op: Op)
      requires l == End(Then(run, op)) && chans == l.registered && hand == l.hand && sent == l.sent && dropped == l.dropped
      requires l.pass == Idle ==> backlog == l.backlog
      modifies `waiting, `pass, `offered, `lost, `discarded, `reported, `run
      ensures Valid() && Value() == l && run == Then(old(run), op)
    {
      waiting, pass, offered, lost, discarded, reported := l.backlog, l.pass, l.offered, l.lost, l.discarded, l.reported;
      run := Then(run, op);
    }

    method RegisterWorkflow(workflow: string)
      requires Valid()
      modifies this
      ensures Valid() && run == Then(old(run), Register(workflow)) && backlog == old(backlog)
      ensures chans == old(chans) + {workflow}
    {
      ghost var l := End(Then(run, Register(workflow)));
      chans := chans + {workflow};
      Settle(l, Register(workflow));
    }

    method UnregisterWorkflow(workflow: string)
      requires Valid()
      modifies this
      ensures Valid() && run == Then(old(run), Unregister(workflow)) && backlog == old(backlog)
      ensures chans == old(chans) - {workflow}
    {
      ghost var l := End(Then(run, Unregister(workflow)));
      if workflow in chans {
        chans := chans - {workflow};
      }
      Settle(l, Unregister(workflow));
    }

    /** dispatch, first: an event of a registered workflow is taken in hand, others are ignored. */
    method LookUp(event: Event) returns (known: bool)
      requires Valid()
      modifies this
      ensures Valid() && run == Then(old(run), Offer(event)) && backlog == old(backlog)
      ensures known == (event.workflow in old(chans)) && hand == if known then old(hand) + [event] else old(hand)
    {
      ghost var l := End(Then(run, Offer(event)));
      known := event.workflow in chans;
      if known {
        hand := hand + [event];
      }
      Settle(l, Offer(event));
    }

    /** dispatch, then: the channel takes the event before the timeout. */
    method SendFromHand(k: nat)
      requires Valid() && Enabled(Value(), Deliver(k))
      modifies this
      ensures Valid() && run == Then(old(run), Deliver(k)) && backlog == old(backlog)
      ensures sent == old(sent) + [old(hand)[k]] && hand == old(hand)[..k] + old(hand)[k + 1..]
    {
      ghost var l := End(Then(run, Deliver(k)));
      sent := sent + [hand[k]];
      hand := RemoveAt(hand, k);
      Settle(l, Deliver(k));
    }

    /** dispatch, or else: the event goes into the backlog, once its lock is free, or is dropped. */
    method ParkFromHand(k: nat, now: int)
      requires Valid() && Enabled(Value(), Park(k, now))
      modifies this
      ensures Valid() && run == Then(old(run), Park(k, now))
      ensures hand == old(hand)[..k] + old(hand)[k + 1..] && sent == old(sent)
      ensures |old(backlog)| < 2048 ==> backlog == old(backlog) + [Entry(old(hand)[k], now)] && dropped == old(dropped)
      ensures |old(backlog)| >= 2048 ==> backlog == old(backlog) && dropped == old(dropped) + 1
    {
      ghost var l := End(Then(run, Park(k, now)));
      var event := hand[k];
      hand := RemoveAt(hand, k);
      if |backlog| < MAX_BACKLOG_SIZE {
        backlog := backlog + [Entry(event, now)];
      } else {
        dropped := dropped + 1;
      }
      Settle(l, Park(k, now));
    }

    /** dispatch as a whole, when nothing comes between its parts. */
    method DispatchEvent(event: Event, accepted: bool, now: int)
      requires Valid() && (accepted || pass == Idle)
      modifies this
      ensures Valid()
      ensures run == if event.workflow !in old(chans) then Then(old(run), Offer(event))
                     else Then(Then(old(run), Offer(event)), if accepted then Deliver(|old(hand)|) else Park(|old(hand)|, now))
    {
      var known := LookUp(event);
      if !known {
        return;
      }
      if accepted {
        SendFromHand(|hand| - 1);
      } else {
        ParkFromHand(|hand| - 1, now);
      }
    }

    method ReportDropped() returns (n: nat)
      requires Valid()
      modifies this
      ensures n == old(dropped) && Valid() && run == Then(old(run), Report) && backlog == old(backlog)
    {
      ghost var l := End(Then(run, Report));
      n := dropped;
      dropped := 0;
      Settle(l, Report);
    }

    /** What other calls do between two looks of a flush: all but what needs the backlog's lock. */
    method Interfere(others: seq<Op>)
      requires Valid() && pass.At?
      modifies this
      ensures Valid() && DuringPass(old(run), run) && backlog == old(backlog)
      ensures waiting == old(waiting) && pass == old(pass)
    {
      for k := 0 to |others|
        invariant Valid() && DuringPass(old(run), run) && backlog == old(backlog)
        invariant waiting == old(waiting) && pass == old(pass)
      {
        ghost var before := run;
        match others[k] {
          case Register(w) => RegisterWorkflow(w);
          case Unregister(w) => UnregisterWorkflow(w);
          case Report => var _ := ReportDropped();
          case Offer(e) => var _ := LookUp(e);
          case Deliver(i) =>
            if i < |hand| && hand[i].workflow in chans {
              SendFromHand(i);
            }
          case _ =>
        }
      }
    }

    /** One turn of the flush's loop: whether the entry is to be kept. */
    method LookAt(entry: Entry, accepted: bool, now: int) returns (keep: bool)
      requires Valid() && pass.At? && pass.now == now && pass.pos < |waiting| && waiting[pass.pos] == entry
      modifies this
      ensures Valid() && run == Then(old(run), Look(accepted)) && backlog == old(backlog)
      ensures pass == At(if keep then old(pass.pos) + 1 else old(pass.pos), now)
      ensures waiting == if keep then old(waiting) else RemoveAt(old(waiting), old(pass.pos))
      ensures keep <==> now - entry.addedAt <= 30_000_000_000 && entry.event.workflow in chans && !accepted
      ensures sent == old(sent) + if now - entry.addedAt <= 30_000_000_000 && entry.event.workflow in chans && accepted
                                  then [entry.event] else []
      ensures dropped == old(dropped) + if now - entry.addedAt > 30_000_000_000 then 1 else 0
      ensures chans == old(chans)
    {
      ghost var l := End(Then(run, Look(accepted)));
      keep := false;
      if now - entry.addedAt > MAX_AGE {
        dropped := dropped + 1;
      } else if entry.event.workflow in chans {
        if accepted {
          sent := sent + [entry.event];
        } else {
          keep := true;
        }
      }
      Settle(l, Look(accepted));
    }

    /** Where a flush stands after k entries: remaining are those it keeps. */
    ghost predicate Flushing(start: Run, remaining: seq<Entry>, k: nat, now: int)
      reads this
    {
      && Valid() && DuringPass(start, run) && k <= |backlog|
      && pass == At(|remaining|, now) && waiting == remaining + backlog[k..]
    }

    /** One turn of the loop, after whatever other calls do first. */
    method Turn(ghost start: Run, remaining: seq<Entry>, k: nat, others: seq<Op>, accepted: bool, now: int)
      returns (kept: seq<Entry>)
      requires Flushing(start, remaining, k, now) && k < |backlog|
      modifies this
      ensures Flushing(start, kept, k + 1, now) && backlog == old(backlog)
    {
      Interfere(others);
      PassGoesOn(start, old(run), run);
      var entry := backlog[k];
      NextEntry(remaining, backlog, k);
      var keep := LookAt(entry, accepted, now);
      kept := if keep then remaining + [entry] else remaining;
    }

    /** flushBacklog: one pass over the backlog, which is rebuilt from what could not be sent. Between two
        entries other calls may register, unregister, look events up, send them directly and report. */
    method FlushBacklog(others: nat -> seq<Op>, accepts: nat -> bool, now: int) returns (ghost during: Run)
      requires Valid() && pass == Idle
      modifies this
      ensures Valid() && pass == Idle
      ensures run == Then(during, EndFlush) && DuringPass(Then(old(run), BeginFlush(now)), during)
      ensures Enabled(End(during), EndFlush)
    {
      ghost var start := Then(run, BeginFlush(now));
      Settle(End(start), BeginFlush(now));
      var remaining: seq<Entry> := [];
      for k := 0 to |backlog|
        invariant backlog == old(backlog) && Flushing(start, remaining, k, now)
      {
        remaining := Turn(start, remaining, k, others(k), accepts(k), now);
      }
      during := run;
      assert waiting == remaining;
      backlog := remaining;
      Settle(End(Then(run, EndFlush)), EndFlush);
    }
  }

  lemma NextEntry(kept: seq<Entry>, all: seq<Entry>, k: nat)
    requires k < |all|
    ensures var waiting := kept + all[k..];
            && waiting[|kept|] == all[k]
            && RemoveAt(waiting, |kept|) == kept + all[k + 1..]
            && waiting == (kept + [all[k]]) + all[k + 1..]
  {
  }

  lemma {:induction false} PassGoesOn(a: Run, b: Run, c: Run)
    requires DuringPass(a, b) && DuringPass(b, c)
    ensures DuringPass(a, c)
  {
    if b != c {
      PassGoesOn(a, b, c.before);
    }
  }

  // ---------------------------------------------------------------- accounting

  function Count(s: seq<Event>, x: Event): nat {
    if s == [] then 0 else Count(s[..|s| - 1], x) + (if s[|s| - 1] == x then 1 else 0)
  }

  function Waiting(entries: seq<Entry>, x: Event): nat {
    if entries == [] then 0 else Waiting(entries[..|entries| - 1], x) + (if entries[|entries| - 1].event == x then 1 else 0)
  }

  lemma CountAppend(s: seq<Event>, e: Event, x: Event)
    ensures Count(s + [e], x) == Count(s, x) + if e == x then 1 else 0
  {
    assert (s + [e])[..|s|] == s;
  }

  lemma WaitingAppend(entries: seq<Entry>, e: Entry, x: Event)
    ensures Waiting(entries + [e], x) == Waiting(entries, x) + if e.event == x then 1 else 0
  {
    assert (entries + [e])[..|entries|] == entries;
  }

  lemma {:induction false} WaitingWithout(entries: seq<Entry>, pos: nat, x: Event)
    requires pos < |entries|
    ensures Waiting(entries, x) == Waiting(RemoveAt(entries, pos), x) + if entries[pos].event == x then 1 else 0
  {
    var last := |entries| - 1;
    if pos == last {
      assert RemoveAt(entries, pos) == entries[..last];
    } else {
      WaitingWithout(entries[..last], pos, x);
      RemoveAtButLast(entries, pos);
      WaitingAppend(RemoveAt(entries[..last], pos), entries[last], x);
    }
  }

  lemma {:induction false} CountWithout(events: seq<Event>, k: nat, x: Event)
    requires k < |events|
    ensures Count(events, x) == Count(RemoveAt(events, k), x) + if events[k] == x then 1 else 0
  {
    var last := |events| - 1;
    if k == last {
      assert RemoveAt(events, k) == events[..last];
    } else {
      CountWithout(events[..last], k, x);
      RemoveAtButLast(events, k);
      CountAppend(RemoveAt(events[..last], k), events[last], x);
    }
  }

  /** How often the event is found in any of the places an offered event can be in. */
  function Placed(l: Ledger, x: Event): nat {
    Count(l.hand, x) + Count(l.sent, x) + Waiting(l.backlog, x) + Count(l.lost, x) + Count(l.discarded, x)
  }

  /** Every event is in these places as often as it was offered, and the drop counter tells the truth. */
  ghost predicate Accounted(l: Ledger) {
    && (forall x :: Placed(l, x) == Count(l.offered, x))
    && |l.lost| == l.dropped + l.reported
  }

  lemma LookPlaces(l: Ledger, accepted: bool, x: Event)
    requires Enabled(l, Look(accepted))
    ensures Placed(AfterLook(l, accepted), x) == Placed(l, x)
  {
    var e := l.backlog[l.pass.pos];
    match FateOf(e, Found(l, accepted), l.pass.now)
    case Kept =>
    case Late =>
      WaitingWithout(l.backlog, l.pass.pos, x);
      CountAppend(l.lost, e.event, x);
    case Ended =>
      WaitingWithout(l.backlog, l.pass.pos, x);
      CountAppend(l.discarded, e.event, x);
    case Sent =>
      WaitingWithout(l.backlog, l.pass.pos, x);
      CountAppend(l.sent, e.event, x);
  }

  lemma HandPlaces(l: Ledger, op: Op, x: Event)
    requires Enabled(l, op) && (op.Offer? || op.Deliver? || op.Park?) && Placed(l, x) == Count(l.offered, x)
    ensures Placed(Apply(l, op), x) == Count(Apply(l, op).offered, x)
  {
    match op
    case Offer(e) =>
      CountAppend(l.offered, e, x);
      CountAppend(l.hand, e, x);
    case Deliver(k) => DeliverPlaces(l, k, x);
    case Park(k, now) => ParkPlaces(l, k, now, x);
  }

  lemma DeliverPlaces(l: Ledger, k: nat, x: Event)
    requires Enabled(l, Deliver(k))
    ensures Placed(Apply(l, Deliver(k)), x) == Placed(l, x)
  {
    CountWithout(l.hand, k, x);
    CountAppend(l.sent, l.hand[k], x);
  }

  lemma ParkPlaces(l: Ledger, k: nat, now: int, x: Event)
    requires Enabled(l, Park(k, now))
    ensures Placed(Apply(l, Park(k, now)), x) == Placed(l, x)
  {
    CountWithout(l.hand, k, x);
    if |l.backlog| < MAX_BACKLOG_SIZE {
      WaitingAppend(l.backlog, Entry(l.hand[k], now), x);
    } else {
      CountAppend(l.lost, l.hand[k], x);
    }
  }

  ghost predicate KeptAreYoung(l: Ledger) {
    l.pass.At? ==>
      && l.pass.pos <= |l.backlog|
      && forall k :: 0 <= k < l.pass.pos ==> l.pass.now - l.backlog[k].addedAt <= MAX_AGE
  }

  ghost predicate Inv(l: Ledger) {
    Accounted(l) && |l.backlog| <= MAX_BACKLOG_SIZE && KeptAreYoung(l)
  }

  lemma {:induction false} CountedIsThere(s: seq<Event>, x: Event)
    ensures Count(s, x) > 0 <==> x in s
    ensures NoRepeat(s) ==> Count(s, x) <= 1
  {
    if s != [] {
      CountedIsThere(s[..|s| - 1], x);
      assert s == s[..|s| - 1] + [s[|s| - 1]];
    }
  }

  lemma HandKeepsInv(l: Ledger, op: Op)
    requires Inv(l) && Enabled(l, op) && (op.Offer? || op.Deliver? || op.Park?)
    ensures Inv(Apply(l, op))
  {
    forall x ensures Placed(Apply(l, op), x) == Count(Apply(l, op).offered, x) {
      HandPlaces(l, op, x);
    }
  }

  lemma LookKeepsInv(l: Ledger, accepted: bool)
    requires Inv(l) && Enabled(l, Look(accepted))
    ensures Inv(AfterLook(l, accepted))
  {
    var l' := AfterLook(l, accepted);
    forall x ensures Placed(l', x) == Count(l'.offered, x) {
      LookPlaces(l, accepted, x);
    }
  }

  lemma {:induction false} EveryRunKeepsInv(r: Run)
    ensures Inv(End(r))
  {
    match r
    case Start =>
    case Then(before, op) =>
      EveryRunKeepsInv(before);
      if Enabled(End(before), op) {
        match op
        case Look(accepted) => LookKeepsInv(End(before), accepted);
        case Offer(_) => HandKeepsInv(End(before), op);
        case Deliver(_) => HandKeepsInv(End(before), op);
        case Park(_, _) => HandKeepsInv(End(before), op);
        case _ =>
      }
  }

  /** Over every interleaving of registrations, the parts of dispatches, looks of a flush and reports: an
      event offered to a registered workflow is in a worker's hand, has been sent, waits in the backlog,
      was counted as dropped, or was discarded because its workflow had ended, as often as it was offered;
      and the backlog keeps its bound. */
  lemma EveryRunAccounts(r: Run)
    ensures Accounted(End(r)) && |End(r).backlog| <= 2048
  {
    EveryRunKeepsInv(r);
  }

  /** The step parks an event when the backlog is full, or looks at an entry older than thirty seconds. */
  ghost predicate Loses(l: Ledger, op: Op) {
    || (op.Park? && l.pass == Idle && op.k < |l.hand| && |l.backlog| >= 2048)
    || (op.Look? && l.pass.At? && l.pass.pos < |l.backlog| && l.pass.now - l.backlog[l.pass.pos].addedAt > 30_000_000_000)
  }

  /** The step looks at an entry that is young enough and whose workflow is not registered. */
  ghost predicate Discards(l: Ledger, op: Op) {
    && op.Look? && l.pass.At? && l.pass.pos < |l.backlog| && !Loses(l, op)
    && l.backlog[l.pass.pos].event.workflow !in l.registered
  }

  /** In every run an event is given up in two places only: one more is counted as dropped if and only if
      it is parked while 2048 wait, or looked at when it is older than thirty seconds; and one more is
      discarded, uncounted, if and only if it is looked at in time while its workflow is not registered. */
  lemma EventIsGivenUpIff(r: Run, op: Op)
    ensures var l, l' := End(r), End(Then(r, op));
            && (l'.lost != l.lost <==> Loses(l, op))
            && (l'.discarded != l.discarded <==> Discards(l, op))
            && (Loses(l, op) ==> l'.lost == l.lost + [if op.Park? then l.hand[op.k] else l.backlog[l.pass.pos].event]
                                 && l'.dropped == l.dropped + 1)
            && (Discards(l, op) ==> l'.discarded == l.discarded + [l.backlog[l.pass.pos].event] && l'.dropped == l.dropped)
  {
    var l, l' := End(r), End(Then(r, op));
    if op.Look? && Enabled(l, op) {
      var e := l.backlog[l.pass.pos].event;
      assert |l.lost + [e]| == |l.lost| + 1 && |l.discarded + [e]| == |l.discarded| + 1;
    }
    if op.Park? && Enabled(l, op) {
      assert |l.lost + [l.hand[op.k]]| == |l.lost| + 1;
    }
  }

  /** In every run in which no event is offered twice, each offered event is in exactly one place. */
  lemma EachEventInOnePlace(r: Run, x: Event)
    requires NoRepeat(End(r).offered)
    ensures Placed(End(r), x) == if x in End(r).offered then 1 else 0
  {
    EveryRunKeepsInv(r);
    CountedIsThere(End(r).offered, x);
  }

  // ---------------------------------------------------------------- what a flush does with each entry

  /** What the looks of a flush find, one after the other. */
  ghost function Findings(p: Run, r: Run): seq<Finding>
    requires DuringPass(p, r)
    decreases r
  {
    if r == p then []
    else
      Findings(p, r.before)
      + if r.op.Look? && Enabled(End(r.before), r.op) then [Found(End(r.before), r.op.accepted)] else []
  }

  /** The events a flush sends, one after the other. */
  ghost function FlushedIn(p: Run, r: Run): seq<Event>
    requires DuringPass(p, r)
    decreases r
  {
    if r == p then []
    else
      FlushedIn(p, r.before)
      + if r.op.Look? && Enabled(End(r.before), r.op) && Fated(End(r.before), r.op.accepted) == Sent
        then [End(r.before).backlog[End(r.before).pass.pos].event] else []
  }

  ghost function Fated(l: Ledger, accepted: bool): Fate
    requires Enabled(l, Look(accepted))
  {
    FateOf(l.backlog[l.pass.pos], Found(l, accepted), l.pass.now)
  }

  /** The entries among those looked at that meet the given fate. */
  ghost function Chosen(entries: seq<Entry>, findings: seq<Finding>, now: int, fate: Fate): seq<Entry>
    requires |findings| <= |entries|
    decreases |findings|
  {
    if findings == [] then []
    else
      var n := |findings| - 1;
      Chosen(entries, findings[..n], now, fate) + if FateOf(entries[n], findings[n], now) == fate then [entries[n]] else []
  }

  function Events(entries: seq<Entry>): (events: seq<Event>)
    ensures |events| == |entries| && forall k :: 0 <= k < |entries| ==> events[k] == entries[k].event
  {
    seq(|entries|, k requires 0 <= k < |entries| => entries[k].event)
  }

  /** The findings so far have decided: of the entries looked at the kept ones wait in front of those still
      to be looked at, and the events that went out are those of the sent ones. */
  ghost predicate Decided(all: seq<Entry>, fs: seq<Finding>, now: int, l: Ledger, out: seq<Event>) {
    && |fs| <= |all|
    && l.pass == At(|Chosen(all, fs, now, Kept)|, now)
    && l.backlog == Chosen(all, fs, now, Kept) + all[|fs|..]
    && out == Events(Chosen(all, fs, now, Sent))
  }

  lemma ChosenNext(all: seq<Entry>, fs: seq<Finding>, f: Finding, now: int, fate: Fate)
    requires |fs| < |all|
    ensures Chosen(all, fs + [f], now, fate)
         == if FateOf(all[|fs|], f, now) == fate then Chosen(all, fs, now, fate) + [all[|fs|]] else Chosen(all, fs, now, fate)
  {
    assert (fs + [f])[..|fs|] == fs;
    assert Chosen(all, fs, now, fate) + [] == Chosen(all, fs, now, fate);
  }

  lemma LookDecides(all: seq<Entry>, fs: seq<Finding>, now: int, l: Ledger, out: seq<Event>, accepted: bool)
    requires Decided(all, fs, now, l, out) && Enabled(l, Look(accepted))
    ensures |fs| < |all| && l.backlog[l.pass.pos] == all[|fs|]
    ensures Decided(all, fs + [Found(l, accepted)], now, AfterLook(l, accepted),
                    if Fated(l, accepted) == Sent then out + [all[|fs|].event] else out)
  {
    var f, kept, sent := Found(l, accepted), Chosen(all, fs, now, Kept), Chosen(all, fs, now, Sent);
    assert |fs| < |all| && l.backlog[l.pass.pos] == all[|fs|];
    assert AfterLook(l, accepted).backlog == Chosen(all, fs + [f], now, Kept) + all[|fs| + 1..]
        && |Chosen(all, fs + [f], now, Kept)| == |kept| + (if Fated(l, accepted) == Kept then 1 else 0) by {
      ChosenNext(all, fs, f, now, Kept);
      NextEntry(kept, all, |fs|);
    }
    ChosenNext(all, fs, f, now, Sent);
    assert Events(sent + [all[|fs|]]) == Events(sent) + [all[|fs|].event];
  }

  /** Each entry that waited at the start of a flush is looked at once, in order, and meets the fate that
      its age and what the look finds decide: it is kept in place, sent, dropped or discarded. */
  lemma {:induction false} PassDecides(b: Run, now: int, r: Run)
    requires Enabled(End(b), BeginFlush(now)) && DuringPass(Then(b, BeginFlush(now)), r)
    ensures var p := Then(b, BeginFlush(now));
            && Decided(End(b).backlog, Findings(p, r), now, End(r), FlushedIn(p, r))
            && (Enabled(End(r), EndFlush) ==> |Findings(p, r)| == |End(b).backlog|)
    decreases r
  {
    var p := Then(b, BeginFlush(now));
    if r != p {
      PassDecides(b, now, r.before);
      var l := End(r.before);
      if r.op.Look? && Enabled(l, r.op) {
        LookDecides(End(b).backlog, Findings(p, r.before), now, l, FlushedIn(p, r.before), r.op.accepted);
        assert FlushedIn(p, r.before) + [] == FlushedIn(p, r.before);
      } else {
        OtherStepsLeave(p, r);
      }
    }
  }

  lemma OtherStepsLeave(p: Run, r: Run)
    requires r != p && DuringPass(p, r) && End(r.before).pass.At? && !(r.op.Look? && Enabled(End(r.before), r.op))
    ensures End(r).pass == End(r.before).pass && End(r).backlog == End(r.before).backlog
    ensures Findings(p, r) == Findings(p, r.before) && FlushedIn(p, r) == FlushedIn(p, r.before)
  {
    assert Findings(p, r.before) + [] == Findings(p, r.before);
    assert FlushedIn(p, r.before) + [] == FlushedIn(p, r.before);
    if Enabled(End(r.before), r.op) {
      OtherStepLeaves(End(r.before), r.op);
    }
  }

  lemma OtherStepLeaves(l: Ledger, op: Op)
    requires Enabled(l, op) && l.pass.At? && !op.Look? && !op.BeginFlush? && !op.EndFlush?
    ensures Apply(l, op).pass == l.pass && Apply(l, op).backlog == l.backlog
  {
  }

  /** a is b with some elements left out, in the same order. */
  ghost predicate Subsequence<T>(a: seq<T>, b: seq<T>)
    decreases |b|
  {
    if b == [] then a == []
    else Subsequence(a, b[..|b| - 1]) || (a != [] && a[|a| - 1] == b[|b| - 1] && Subsequence(a[..|a| - 1], b[..|b| - 1]))
  }

  lemma SubsequenceGrows<T>(a: seq<T>, b: seq<T>, x: T)
    requires Subsequence(a, b)
    ensures Subsequence(a, b + [x]) && Subsequence(a + [x], b + [x])
  {
    assert (b + [x])[..|b|] == b && (a + [x])[..|a|] == a;
  }

  lemma {:induction false} ChosenInOrder(entries: seq<Entry>, findings: seq<Finding>, now: int, fate: Fate)
    requires |findings| <= |entries|
    ensures Subsequence(Chosen(entries, findings, now, fate), entries[..|findings|])
    decreases |findings|
  {
    if findings != [] {
      var n := |findings| - 1;
      assert findings == findings[..n] + [findings[n]];
      ChosenNext(entries, findings[..n], findings[n], now, fate);
      ChosenInOrder(entries, findings[..n], now, fate);
      SubsequenceGrows(Chosen(entries, findings[..n], now, fate), entries[..n], entries[n]);
      assert entries[..n] + [entries[n]] == entries[..n + 1];
    }
  }

  lemma {:induction false} ChosenMembers(entries: seq<Entry>, findings: seq<Finding>, now: int, fate: Fate, e: Entry)
    requires |findings| <= |entries|
    ensures e in Chosen(entries, findings, now, fate) <==>
              exists i :: 0 <= i < |findings| && entries[i] == e && FateOf(e, findings[i], now) == fate
    decreases |findings|
  {
    if findings != [] {
      var n := |findings| - 1;
      assert findings == findings[..n] + [findings[n]];
      ChosenNext(entries, findings[..n], findings[n], now, fate);
      ChosenMembers(entries, findings[..n], now, fate, e);
      assert forall i :: 0 <= i < n ==> findings[..n][i] == findings[i];
    }
  }

  /** What remains after a flush keeps its order; none of it is older than thirty seconds at the flush's
      clock reading; and each remaining entry was refused by the channel of a workflow then registered. */
  lemma FlushKeepsOrder(b: Run, now: int, r: Run)
    requires Enabled(End(b), BeginFlush(now)) && DuringPass(Then(b, BeginFlush(now)), r) && Enabled(End(r), EndFlush)
    ensures var all, fs := End(b).backlog, Findings(Then(b, BeginFlush(now)), r);
            && |fs| == |all|
            && Subsequence(End(r).backlog, all)
            && (forall e :: e in End(r).backlog <==>
                  exists i :: 0 <= i < |fs| && all[i] == e && now - e.addedAt <= 30_000_000_000 && fs[i] == Finding(true, false))
  {
    PassDecides(b, now, r);
    var all, fs := End(b).backlog, Findings(Then(b, BeginFlush(now)), r);
    ChosenInOrder(all, fs, now, Kept);
    assert all[..|fs|] == all && all[|fs|..] == [];
    assert End(r).backlog == Chosen(all, fs, now, Kept) + [] == Chosen(all, fs, now, Kept);
    forall e ensures e in End(r).backlog <==>
                  exists i :: 0 <= i < |fs| && all[i] == e && now - e.addedAt <= 30_000_000_000 && fs[i] == Finding(true, false)
    {
      ChosenMembers(all, fs, now, Kept, e);
      forall i | 0 <= i < |fs| ensures FateOf(e, fs[i], now) == Kept <==> now - e.addedAt <= MAX_AGE && fs[i] == Finding(true, false) {
        assert fs[i] == Finding(fs[i].registered, fs[i].accepted);
      }
    }
  }

  /** What a flush sends goes out in the order it waited. */
  lemma FlushSendsInOrder(b: Run, now: int, r: Run)
    requires Enabled(End(b), BeginFlush(now)) && DuringPass(Then(b, BeginFlush(now)), r)
    ensures Subsequence(FlushedIn(Then(b, BeginFlush(now)), r), Events(End(b).backlog))
  {
    PassDecides(b, now, r);
    var all, fs := End(b).backlog, Findings(Then(b, BeginFlush(now)), r);
    ChosenInOrder(all, fs, now, Sent);
    EventsInOrder(Chosen(all, fs, now, Sent), all[..|fs|]);
    LongerStillContains(Events(Chosen(all, fs, now, Sent)), Events(all[..|fs|]), Events(all));
  }

  lemma {:induction false} EventsInOrder(a: seq<Entry>, b: seq<Entry>)
    requires Subsequence(a, b)
    ensures Subsequence(Events(a), Events(b))
    decreases |b|
  {
    if b != [] {
      var n := |b| - 1;
      assert Events(b)[..n] == Events(b[..n]);
      if Subsequence(a, b[..n]) {
        EventsInOrder(a, b[..n]);
      } else {
        EventsInOrder(a[..|a| - 1], b[..n]);
        assert Events(a)[..|a| - 1] == Events(a[..|a| - 1]);
      }
    }
  }

  lemma {:induction false} LongerStillContains(a: seq<Event>, b: seq<Event>, c: seq<Event>)
    requires Subsequence(a, b) && b <= c
    ensures Subsequence(a, c)
    decreases |c|
  {
    if b != c {
      LongerStillContains(a, b, c[..|c| - 1]);
    }
  }

  /** A waiting event is sent by a flush if and only if, when the flush looks at it, it is not older than
      thirty seconds, its workflow is registered and the channel has room: whichever registration it was
      offered under, so a later execution of the workflow receives it. */
  lemma FlushSendsIff(b: Run, now: int, r: Run, i: nat)
    requires Enabled(End(b), BeginFlush(now)) && DuringPass(Then(b, BeginFlush(now)), r)
    requires NoRepeat(End(b).offered) && i < |Findings(Then(b, BeginFlush(now)), r)|
    ensures var all, fs := End(b).backlog, Findings(Then(b, BeginFlush(now)), r);
            && i < |all|
            && (all[i].event in FlushedIn(Then(b, BeginFlush(now)), r)
                <==> now - all[i].addedAt <= 30_000_000_000 && fs[i].registered && fs[i].accepted)
  {
    PassDecides(b, now, r);
    EveryRunKeepsInv(b);
    var all, fs := End(b).backlog, Findings(Then(b, BeginFlush(now)), r);
    var chosen := Chosen(all, fs, now, Sent);
    if FateOf(all[i], fs[i], now) == Sent {
      ChosenMembers(all, fs, now, Sent, all[i]);
      var k :| 0 <= k < |chosen| && chosen[k] == all[i];
      assert Events(chosen)[k] == all[i].event;
    }
    if all[i].event in Events(chosen) {
      var k :| 0 <= k < |chosen| && Events(chosen)[k] == all[i].event;
      ChosenMembers(all, fs, now, Sent, chosen[k]);
      var j :| 0 <= j < |fs| && all[j] == chosen[k] && FateOf(chosen[k], fs[j], now) == Sent;
      WaitsOnce(End(b), i, j);
    }
  }

  /** No event waits twice. */
  lemma WaitsOnce(l: Ledger, i: nat, j: nat)
    requires Accounted(l) && NoRepeat(l.offered) && i < |l.backlog| && j < |l.backlog|
    requires l.backlog[i].event == l.backlog[j].event
    ensures i == j
  {
    var x := l.backlog[i].event;
    assert Waiting(l.backlog, x) <= 1 by {
      assert Placed(l, x) == Count(l.offered, x);
      CountedIsThere(l.offered, x);
    }
    WaitingAt(l.backlog, i, j);
  }

  lemma {:induction false} WaitsSomewhere(entries: seq<Entry>, i: nat)
    requires i < |entries|
    ensures Waiting(entries, entries[i].event) > 0
  {
    WaitingWithout(entries, i, entries[i].event);
  }

  lemma WaitingAt(entries: seq<Entry>, i: nat, j: nat)
    requires i < |entries| && j < |entries| && entries[i].event == entries[j].event
    ensures i != j ==> Waiting(entries, entries[i].event) >= 2
  {
    if i != j {
      WaitingWithout(entries, i, entries[i].event);
      WaitsSomewhere(RemoveAt(entries, i), if j < i then j else j - 1);
    }
  }

  /** Such a run, for every event: offered to one execution, sent to the next. */
  lemma WaitingEventReachesNextExecution(e: Event, added: int, now: int)
    requires now - added <= 30_000_000_000
    ensures var w := e.workflow;
            var r := Then(Then(Then(Then(Then(Start, Register(w)), Offer(e)), Park(0, added)), Unregister(w)), Register(w));
            End(r).sent == [] && End(Then(Then(r, BeginFlush(now)), Look(true))).sent == [e]
  {
    var w := e.workflow;
    var l1 := EMPTY.(registered := {w});
    var l2 := l1.(offered := [e], backlog := [Entry(e, added)]);
    var r1 := Then(Start, Register(w));
    assert {} + {w} == {w} && [] + [e] == [e] && [] + [Entry(e, added)] == [Entry(e, added)];
    assert End(r1) == l1;
    var r2 := Then(r1, Offer(e));
    assert End(r2) == l1.(offered := [e], hand := [e]);
    assert RemoveAt([e], 0) == [];
    var r3 := Then(r2, Park(0, added));
    assert End(r3) == l2;
    var r4 := Then(r3, Unregister(w));
    assert {w} - {w} == {};
    assert End(r4) == l2.(registered := {});
    var r5 := Then(r4, Register(w));
    assert End(r5) == l2;
    assert End(Then(r5, BeginFlush(now))) == l2.(pass := At(0, now));
  }

  // ---------------------------------------------------------------- order within one workflow

  /** a comes before b. */
  ghost predicate Before(s: seq<Event>, a: Event, b: Event) {
    exists p, q :: 0 <= p < q < |s| && s[p] == a && s[q] == b
  }

  lemma BeforeStays(s: seq<Event>, e: Event, a: Event, b: Event)
    requires Before(s, a, b)
    ensures Before(s + [e], a, b)
  {
    var p, q :| 0 <= p < q < |s| && s[p] == a && s[q] == b;
    assert (s + [e])[p] == a && (s + [e])[q] == b;
  }

  lemma BeforeLast(s: seq<Event>, e: Event, a: Event)
    requires a in s
    ensures Before(s + [e], a, e)
  {
    var p :| 0 <= p < |s| && s[p] == a;
    assert (s + [e])[p] == a && (s + [e])[|s|] == e;
  }

  lemma BeforeIsOneWay(s: seq<Event>, a: Event, b: Event)
    requires NoRepeat(s) && Before(s, a, b)
    ensures !Before(s, b, a)
  {
    var p, q :| 0 <= p < q < |s| && s[p] == a && s[q] == b;
    forall p', q' ensures !(0 <= p' < q' < |s| && s[p'] == b && s[q'] == a) {
      if 0 <= p' < |s| && s[p'] == b {
        assert p' == q;
      }
    }
  }

  lemma OneIsBefore(s: seq<Event>, a: Event, b: Event)
    requires a in s && b in s && a != b
    ensures Before(s, a, b) || Before(s, b, a)
  {
    var p :| 0 <= p < |s| && s[p] == a;
    var q :| 0 <= q < |s| && s[q] == b;
    if p < q {
      assert Before(s, a, b);
    } else {
      assert Before(s, b, a);
    }
  }

  lemma BeforeWas(s: seq<Event>, e: Event, a: Event, b: Event)
    requires e !in s && b in s && NoRepeat(s) && Before(s + [e], a, b)
    ensures Before(s, a, b)
  {
    var p, q :| 0 <= p < q < |s + [e]| && (s + [e])[p] == a && (s + [e])[q] == b;
    assert q < |s|;
    assert s[p] == a && s[q] == b;
  }

  /** The event has been offered and may still be sent: it waits, or is in hand. */
  ghost predicate Unsent(l: Ledger, e: Event) {
    e in l.hand || e in Events(l.backlog)
  }

  /** The event that a step sends, if it sends one. */
  ghost predicate Sends(l: Ledger, op: Op, e: Event)
    requires Enabled(l, op)
  {
    match op
    case Deliver(k) => e == l.hand[k]
    case Look(accepted) => e == l.backlog[l.pass.pos].event && Fated(l, accepted) == Sent
    case _ => false
  }

  /** Where an unsent or sent event is, and that it was offered. */
  lemma {:induction false} WaitingIsThere(entries: seq<Entry>, x: Event)
    ensures Waiting(entries, x) > 0 <==> x in Events(entries)
  {
    if entries != [] {
      var n := |entries| - 1;
      WaitingIsThere(entries[..n], x);
      assert Events(entries) == Events(entries[..n]) + [entries[n].event];
    }
  }

  /** In a ledger without repetition an offered event is either sent or unsent or gone, never two of them. */
  lemma InOnePlace(l: Ledger, x: Event)
    requires Accounted(l) && NoRepeat(l.offered)
    ensures x in l.sent || Unsent(l, x) ==> x in l.offered
    ensures !(x in l.sent && Unsent(l, x))
  {
    assert Placed(l, x) == Count(l.offered, x);
    CountedIsThere(l.offered, x);
    CountedIsThere(l.sent, x);
    CountedIsThere(l.hand, x);
    WaitingIsThere(l.backlog, x);
  }

  /** What a step does to the unsent events of a ledger without repetition. */
  lemma StepMoves(l: Ledger, op: Op, x: Event)
    requires Inv(l) && Enabled(l, op) && NoRepeat(Apply(l, op).offered)
    ensures var l' := Apply(l, op);
            && (Unsent(l', x) ==> Unsent(l, x) || op == Offer(x))
            && (Unsent(l, x) && op.Deliver? && l.hand[op.k] != x ==> Unsent(l', x))
            && (Unsent(l, x) && op.Look? && l.backlog[l.pass.pos].event != x ==> Unsent(l', x))
            && (op.Offer? ==> (Unsent(l', x) <==> Unsent(l, x) || x == op.event))
  {
    var l' := Apply(l, op);
    match op
    case Deliver(k) => WithoutMembers(l.hand, k, x);
    case Park(k, now) =>
      WithoutMembers(l.hand, k, x);
      if |l.backlog| < MAX_BACKLOG_SIZE {
        assert Events(l'.backlog) == Events(l.backlog) + [l.hand[k]];
      }
    case Look(accepted) =>
      if Fated(l, accepted) != Kept {
        assert Events(l'.backlog) == RemoveAt(Events(l.backlog), l.pass.pos);
        WithoutMembers(Events(l.backlog), l.pass.pos, x);
      }
    case _ =>
  }

  lemma WithoutMembers(s: seq<Event>, k: nat, x: Event)
    requires k < |s|
    ensures x in RemoveAt(s, k) ==> x in s
    ensures x in s && s[k] != x ==> x in RemoveAt(s, k)
  {
    assert s == s[..k] + [s[k]] + s[k + 1..];
  }

  /** The workflow's events are sent in the order they were offered, and past none that may still be sent. */
  ghost predicate InOrder(l: Ledger, w: string) {
    SentInOrder(l, w) && forall a, b :: a in l.sent && Unsent(l, b) && a.workflow == w && b.workflow == w ==> Before(l.offered, a, b)
  }

  ghost predicate SentInOrder(l: Ledger, w: string) {
    forall i, j :: 0 <= i < j < |l.sent| && l.sent[i].workflow == w && l.sent[j].workflow == w
      ==> Before(l.offered, l.sent[i], l.sent[j])
  }

  /** The step sends an event of the workflow past b, which was offered earlier and may still be sent. */
  ghost predicate SendsPast(l: Ledger, op: Op, w: string, b: Event)
    requires Enabled(l, op)
  {
    b.workflow == w && Unsent(l, b) && exists e :: Sends(l, op, e) && e.workflow == w && Before(l.offered, b, e)
  }

  ghost predicate Overtakes(l: Ledger, op: Op, w: string)
    requires Enabled(l, op)
  {
    exists b :: SendsPast(l, op, w, b)
  }

  lemma QuietStep(l: Ledger, op: Op)
    requires Enabled(l, op)
    ensures Apply(l, op).sent == l.sent || exists e :: Sends(l, op, e)
  {
    match op
    case Deliver(k) => assert Sends(l, op, l.hand[k]);
    case Look(accepted) =>
      if Fated(l, accepted) == Sent {
        assert Sends(l, op, l.backlog[l.pass.pos].event);
      }
    case _ =>
  }

  lemma QuietStepKeepsOrder(l: Ledger, op: Op, w: string)
    requires Inv(l) && InOrder(l, w) && Enabled(l, op) && NoRepeat(Apply(l, op).offered)
    requires forall e :: !Sends(l, op, e)
    ensures InOrder(Apply(l, op), w)
  {
    var l' := Apply(l, op);
    QuietStep(l, op);
    if op.Offer? {
      OfferKeepsOrder(l, op.event, w);
    } else {
      forall a, b | a in l'.sent && Unsent(l', b) && a.workflow == w && b.workflow == w ensures Before(l'.offered, a, b) {
        StepMoves(l, op, b);
      }
    }
  }

  lemma OfferKeepsOrder(l: Ledger, e: Event, w: string)
    requires Inv(l) && InOrder(l, w) && Enabled(l, Offer(e)) && NoRepeat(l.offered + [e])
    ensures InOrder(Apply(l, Offer(e)), w)
  {
    var l' := Apply(l, Offer(e));
    forall i, j | 0 <= i < j < |l.sent| && l.sent[i].workflow == w && l.sent[j].workflow == w
      ensures Before(l'.offered, l.sent[i], l.sent[j])
    {
      BeforeStays(l.offered, e, l.sent[i], l.sent[j]);
    }
    forall a, b | a in l.sent && Unsent(l', b) && a.workflow == w && b.workflow == w ensures Before(l'.offered, a, b) {
      StepMoves(l, Offer(e), b);
      if b == e {
        OldIsNoRepeat(l.offered, e);
        InOnePlace(l, a);
        BeforeLast(l.offered, e, a);
      } else {
        BeforeStays(l.offered, e, a, b);
      }
    }
  }

  lemma OldIsNoRepeat(s: seq<Event>, e: Event)
    requires NoRepeat(s + [e])
    ensures NoRepeat(s) && e !in s
  {
    forall i, j | 0 <= i < j < |s| ensures s[i] != s[j] {
      assert (s + [e])[i] != (s + [e])[j];
    }
    forall i | 0 <= i < |s| ensures s[i] != e {
      assert (s + [e])[i] != (s + [e])[|s|];
    }
  }

  /** A sending step appends one event, which was unsent, and offers nothing. */
  lemma SendingStep(l: Ledger, op: Op, e: Event)
    requires Enabled(l, op) && Sends(l, op, e)
    ensures Apply(l, op).sent == l.sent + [e] && Apply(l, op).offered == l.offered && Unsent(l, e)
    ensures forall f :: Sends(l, op, f) ==> f == e
  {
    if op.Look? {
      assert Events(l.backlog)[l.pass.pos] == e;
    }
  }

  /** A step that sends an event keeps the order of its workflow if and only if no event of the workflow
      that was offered earlier may still be sent. */
  lemma SendKeepsOrderIff(l: Ledger, op: Op, e: Event)
    requires Inv(l) && InOrder(l, e.workflow) && Enabled(l, op) && Sends(l, op, e) && NoRepeat(l.offered)
    ensures InOrder(Apply(l, op), e.workflow)
            <==> forall b :: Unsent(l, b) && b.workflow == e.workflow ==> !Before(l.offered, b, e)
  {
    var w, l' := e.workflow, Apply(l, op);
    SendingStep(l, op, e);
    ApplyKeepsInv(l, op);
    InOnePlace(l', e);
    InOnePlace(l, e);
    if b :| Unsent(l, b) && b.workflow == w && Before(l.offered, b, e) {
      BeforeIsOneWay(l.offered, b, e);
      StepMoves(l, op, b);
      assert e in l'.sent && Unsent(l', b);
    } else {
      SendStaysInOrder(l, op, e);
    }
  }

  lemma ApplyKeepsInv(l: Ledger, op: Op)
    requires Inv(l) && Enabled(l, op)
    ensures Inv(Apply(l, op))
  {
    match op
    case Look(accepted) => LookKeepsInv(l, accepted);
    case Offer(_) => HandKeepsInv(l, op);
    case Deliver(_) => HandKeepsInv(l, op);
    case Park(_, _) => HandKeepsInv(l, op);
    case _ =>
  }

  lemma SendStaysInOrder(l: Ledger, op: Op, e: Event)
    requires Inv(l) && InOrder(l, e.workflow) && Enabled(l, op) && Sends(l, op, e) && NoRepeat(l.offered)
    requires forall b :: Unsent(l, b) && b.workflow == e.workflow ==> !Before(l.offered, b, e)
    ensures InOrder(Apply(l, op), e.workflow)
  {
    var w, l' := e.workflow, Apply(l, op);
    SendingStep(l, op, e);
    ApplyKeepsInv(l, op);
    forall i, j | 0 <= i < j < |l'.sent| && l'.sent[i].workflow == w && l'.sent[j].workflow == w
      ensures Before(l'.offered, l'.sent[i], l'.sent[j])
    {
      if j == |l.sent| {
        assert l.sent[i] in l.sent;
      }
    }
    forall a, b | a in l'.sent && Unsent(l', b) && a.workflow == w && b.workflow == w ensures Before(l'.offered, a, b) {
      StepMoves(l, op, b);
      if a !in l.sent {
        InOnePlace(l', b);
        InOnePlace(l, b);
        InOnePlace(l, e);
        OneIsBefore(l.offered, e, b);
      }
    }
  }

  /** A direct send keeps the workflow's order if and only if no event of the workflow that was offered
      earlier waits in the backlog or is still in a worker's hand. */
  lemma DirectSendKeepsOrderIff(l: Ledger, k: nat)
    requires Inv(l) && Enabled(l, Deliver(k)) && InOrder(l, l.hand[k].workflow) && NoRepeat(l.offered)
    ensures InOrder(Apply(l, Deliver(k)), l.hand[k].workflow)
            <==> forall b :: Unsent(l, b) && b.workflow == l.hand[k].workflow ==> !Before(l.offered, b, l.hand[k])
  {
    SendKeepsOrderIff(l, Deliver(k), l.hand[k]);
  }

  /** A look of a flush keeps every workflow's order if and only if it does not send an event past one of
      its workflow that was offered earlier and waits, kept or not yet looked at, or is in hand. */
  lemma LookKeepsOrderIff(l: Ledger, accepted: bool, w: string)
    requires Inv(l) && InOrder(l, w) && Enabled(l, Look(accepted)) && NoRepeat(l.offered)
    ensures InOrder(AfterLook(l, accepted), w) <==> !Overtakes(l, Look(accepted), w)
  {
    StepKeepsOrderIff(l, Look(accepted), w);
  }

  lemma StepKeepsOrderIff(l: Ledger, op: Op, w: string)
    requires Inv(l) && InOrder(l, w) && Enabled(l, op) && NoRepeat(Apply(l, op).offered)
    ensures InOrder(Apply(l, op), w) <==> !Overtakes(l, op, w)
  {
    if e :| Sends(l, op, e) {
      SendingStep(l, op, e);
      if e.workflow == w {
        SendKeepsOrderIff(l, op, e);
        if b :| Unsent(l, b) && b.workflow == w && Before(l.offered, b, e) {
          assert SendsPast(l, op, w, b);
        }
      } else {
        OtherSendKeepsOrder(l, op, e, w);
      }
    } else {
      QuietStepKeepsOrder(l, op, w);
    }
  }

  lemma OtherSendKeepsOrder(l: Ledger, op: Op, e: Event, w: string)
    requires Inv(l) && InOrder(l, w) && Enabled(l, op) && Sends(l, op, e) && e.workflow != w && NoRepeat(l.offered)
    ensures InOrder(Apply(l, op), w)
  {
    var l' := Apply(l, op);
    SendingStep(l, op, e);
    forall a, b | a in l'.sent && Unsent(l', b) && a.workflow == w && b.workflow == w ensures Before(l'.offered, a, b) {
      StepMoves(l, op, b);
    }
  }

  /** At every moment of the run the workflow's events are in order. */
  ghost predicate AlwaysInOrder(r: Run, w: string) {
    InOrder(End(r), w) && (r.Then? ==> AlwaysInOrder(r.before, w))
  }

  ghost predicate NothingOvertakes(r: Run, w: string) {
    r.Then? ==> NothingOvertakes(r.before, w) && (Enabled(End(r.before), r.op) ==> !Overtakes(End(r.before), r.op, w))
  }

  /** Over every run in which no event is offered twice, a workflow's events stay in order, never sent past
      one that may still be sent, if and only if no direct send and no look of a flush sends one past
      another that was offered earlier and waits or is in hand. */
  lemma {:induction false} OrderIsKeptIff(r: Run, w: string)
    requires NoRepeat(End(r).offered)
    ensures AlwaysInOrder(r, w) <==> NothingOvertakes(r, w)
  {
    if r.Then? {
      var l := End(r.before);
      OfferedGrows(r);
      OrderIsKeptIff(r.before, w);
      EveryRunKeepsInv(r.before);
      if AlwaysInOrder(r.before, w) && Enabled(l, r.op) {
        StepKeepsOrderIff(l, r.op, w);
      }
    }
  }

  lemma OfferedGrows(r: Run)
    requires r.Then? && NoRepeat(End(r).offered)
    ensures NoRepeat(End(r.before).offered)
  {
    var l, l' := End(r.before), End(r);
    if Enabled(l, r.op) {
      OfferedStep(l, r.op);
    }
    assert forall k :: 0 <= k < |l.offered| ==> l'.offered[k] == l.offered[k];
  }

  // ---------------------------------------------------------------- what actually goes out of order

  /** Some step has sent a later event of the workflow while b, offered earlier, might still be sent. */
  ghost predicate WasPassed(r: Run, w: string, b: Event) {
    r.Then? && (
      || WasPassed(r.before, w, b)
      || (Enabled(End(r.before), r.op) && SendsPast(End(r.before), r.op, w, b)))
  }

  /** A sent event of the workflow was offered behind b. */
  ghost predicate SentBehind(l: Ledger, w: string, b: Event) {
    exists a :: a in l.sent && a.workflow == w && Before(l.offered, b, a)
  }

  /** Over every run in which no event is offered twice, the events of a workflow have been sent in the
      order they were offered if and only if none that a later one was sent past has been sent after all. */
  lemma {:induction false} SentInOrderIff(r: Run, w: string)
    requires NoRepeat(End(r).offered)
    ensures SentInOrder(End(r), w) <==> forall b :: WasPassed(r, w, b) ==> b !in End(r).sent
  {
    if r.Then? {
      var l := End(r.before);
      OfferedGrows(r);
      SentInOrderIff(r.before, w);
      EveryRunKeepsInv(r.before);
      if Enabled(l, r.op) {
        if e :| Sends(l, r.op, e) {
          SendingStep(l, r.op, e);
          if e.workflow == w {
            PassedIsBehind(r.before, w, e);
          }
          SentOneMore(r, w, e);
        } else {
          QuietStep(l, r.op);
          forall b ensures !SendsPast(l, r.op, w, b) {
          }
          OfferKeepsSentOrder(l, r.op, w);
        }
      }
    }
  }

  /** For an event that may still be sent: it was passed exactly when a sent event was offered behind it. */
  lemma {:induction false} PassedIsBehind(r: Run, w: string, b: Event)
    requires NoRepeat(End(r).offered) && Unsent(End(r), b) && b.workflow == w
    ensures WasPassed(r, w, b) <==> SentBehind(End(r), w, b)
  {
    match r
    case Start =>
    case Then(before, op) =>
      var l := End(before);
      OfferedGrows(r);
      EveryRunKeepsInv(before);
      if Enabled(l, op) {
        StepMoves(l, op, b);
        if Unsent(l, b) {
          PassedIsBehind(before, w, b);
          BehindStep(l, op, w, b);
        } else {
          OldIsNoRepeat(l.offered, b);
          NewIsNotBehind(l, b, w);
          NotOfferedNotPassed(before, w, b);
        }
      } else {
        PassedIsBehind(before, w, b);
      }
  }

  lemma BehindStep(l: Ledger, op: Op, w: string, b: Event)
    requires Inv(l) && Enabled(l, op) && NoRepeat(Apply(l, op).offered) && Unsent(l, b) && b.workflow == w
    ensures SentBehind(Apply(l, op), w, b) <==> SentBehind(l, w, b) || SendsPast(l, op, w, b)
  {
    var l' := Apply(l, op);
    if e :| Sends(l, op, e) {
      SendingStep(l, op, e);
      if SendsPast(l, op, w, b) {
        assert e in l'.sent;
      }
      if a :| a in l.sent && a.workflow == w && Before(l.offered, b, a) {
        assert a in l'.sent;
      }
    } else if op.Offer? {
      OldIsNoRepeat(l.offered, op.event);
      forall a | a in l.sent ensures Before(l.offered, b, a) <==> Before(l'.offered, b, a) {
        InOnePlace(l, a);
        if Before(l.offered, b, a) {
          BeforeStays(l.offered, op.event, b, a);
        }
        if Before(l'.offered, b, a) {
          BeforeWas(l.offered, op.event, b, a);
        }
      }
    }
  }

  lemma NewIsNotBehind(l: Ledger, e: Event, w: string)
    requires Inv(l) && Enabled(l, Offer(e)) && NoRepeat(l.offered + [e])
    ensures !SentBehind(Apply(l, Offer(e)), w, e)
  {
    var l' := Apply(l, Offer(e));
    OldIsNoRepeat(l.offered, e);
    forall a | a in l'.sent ensures !Before(l'.offered, e, a) {
      InOnePlace(l, a);
      BeforeLast(l.offered, e, a);
      BeforeIsOneWay(l'.offered, a, e);
    }
  }

  lemma {:induction false} NotOfferedNotPassed(r: Run, w: string, b: Event)
    requires NoRepeat(End(r).offered) && b !in End(r).offered
    ensures !WasPassed(r, w, b)
  {
    if r.Then? {
      OfferedGrows(r);
      OnlyGrows(r, b);
      NotOfferedNotPassed(r.before, w, b);
      EveryRunKeepsInv(r.before);
      InOnePlace(End(r.before), b);
    }
  }

  lemma OnlyGrows(r: Run, b: Event)
    requires r.Then?
    ensures b in End(r.before).offered ==> b in End(r).offered
  {
    if Enabled(End(r.before), r.op) {
      OfferedStep(End(r.before), r.op);
    }
  }

  lemma OfferedStep(l: Ledger, op: Op)
    requires Enabled(l, op)
    ensures Apply(l, op).offered == if op.Offer? then l.offered + [op.event] else l.offered
  {
  }

  lemma OfferKeepsSentOrder(l: Ledger, op: Op, w: string)
    requires Inv(l) && Enabled(l, op) && NoRepeat(Apply(l, op).offered) && Apply(l, op).sent == l.sent
    ensures SentInOrder(Apply(l, op), w) <==> SentInOrder(l, w)
  {
    var l' := Apply(l, op);
    if op.Offer? {
      OldIsNoRepeat(l.offered, op.event);
      forall i, j | 0 <= i < j < |l.sent|
        ensures Before(l.offered, l.sent[i], l.sent[j]) <==> Before(l'.offered, l.sent[i], l.sent[j])
      {
        InOnePlace(l, l.sent[j]);
        if Before(l.offered, l.sent[i], l.sent[j]) {
          BeforeStays(l.offered, op.event, l.sent[i], l.sent[j]);
        }
        if Before(l'.offered, l.sent[i], l.sent[j]) {
          BeforeWas(l.offered, op.event, l.sent[i], l.sent[j]);
        }
      }
    }
  }

  lemma SentOneMore(r: Run, w: string, e: Event)
    requires r.Then? && NoRepeat(End(r).offered) && NoRepeat(End(r.before).offered) && Inv(End(r.before))
    requires Enabled(End(r.before), r.op) && Sends(End(r.before), r.op, e)
    requires SentInOrder(End(r.before), w) <==> forall b :: WasPassed(r.before, w, b) ==> b !in End(r.before).sent
    requires e.workflow == w ==> (WasPassed(r.before, w, e) <==> SentBehind(End(r.before), w, e))
    ensures SentInOrder(End(r), w) <==> forall b :: WasPassed(r, w, b) ==> b !in End(r).sent
  {
    var l, l' := End(r.before), End(r);
    SendingStep(l, r.op, e);
    SentOrderWithOne(l, e, w);
    forall b ensures (WasPassed(r, w, b) ==> b !in l'.sent) <==>
                     ((WasPassed(r.before, w, b) ==> b !in l.sent) && !(b == e && WasPassed(r.before, w, e)))
    {
      InOnePlace(l, b);
      if SendsPast(l, r.op, w, b) {
        NotPastItself(l, r.op, w, b, e);
      }
    }
    if e.workflow != w {
      OnlyOwnArePassed(r.before, w, e);
    }
  }

  /** An event is not sent past itself. */
  lemma NotPastItself(l: Ledger, op: Op, w: string, b: Event, e: Event)
    requires Enabled(l, op) && NoRepeat(l.offered) && SendsPast(l, op, w, b) && Sends(l, op, e)
    ensures b != e
  {
    SendingStep(l, op, e);
    forall p, q ensures !(0 <= p < q < |l.offered| && l.offered[p] == e && l.offered[q] == e) {
    }
    assert !Before(l.offered, e, e);
  }

  lemma {:induction false} OnlyOwnArePassed(r: Run, w: string, e: Event)
    requires e.workflow != w
    ensures !WasPassed(r, w, e)
  {
    if r.Then? {
      OnlyOwnArePassed(r.before, w, e);
    }
  }

  lemma SentOrderWithOne(l: Ledger, e: Event, w: string)
    requires Accounted(l) && NoRepeat(l.offered) && Unsent(l, e)
    ensures SentInOrder(l.(sent := l.sent + [e]), w) <==> SentInOrder(l, w) && (e.workflow == w ==> !SentBehind(l, w, e))
  {
    var l' := l.(sent := l.sent + [e]);
    assert forall i :: 0 <= i < |l.sent| ==> l'.sent[i] == l.sent[i];
    assert l'.sent[|l.sent|] == e;
    forall a | a in l.sent ensures Before(l.offered, a, e) <==> !Before(l.offered, e, a) {
      InOnePlace(l, a);
      InOnePlace(l, e);
      OneIsBefore(l.offered, a, e);
      if Before(l.offered, a, e) {
        BeforeIsOneWay(l.offered, a, e);
      }
    }
  }

  ghost function BothInHand(a: Event, b: Event): Run {
    Then(Then(Then(Start, Register(a.workflow)), Offer(a)), Offer(b))
  }

  lemma AfterBothInHand(a: Event, b: Event)
    requires a.workflow == b.workflow
    ensures End(BothInHand(a, b)) == EMPTY.(registered := {a.workflow}, offered := [a, b], hand := [a, b])
  {
    var w := a.workflow;
    var l1 := EMPTY.(registered := {w});
    assert {} + {w} == {w} && [] + [a] == [a] && [a] + [b] == [a, b];
    assert End(Then(Start, Register(w))) == l1;
    assert End(Then(Then(Start, Register(w)), Offer(a))) == l1.(offered := [a], hand := [a]);
  }

  /** Two workers suffice: the first event is still in hand when the second is sent, for every two events
      of one workflow. */
  lemma EventInHandIsPassed(a: Event, b: Event)
    requires a.workflow == b.workflow && a != b
    ensures var r := Then(Then(BothInHand(a, b), Deliver(1)), Deliver(0));
            End(r).offered == [a, b] && End(r).sent == [b, a]
  {
    AfterBothInHand(a, b);
    assert RemoveAt([a, b], 1) == [a] && [] + [b] == [b] && RemoveAt([a], 0) == [] && [b] + [a] == [b, a];
    assert End(Then(BothInHand(a, b), Deliver(1)))
        == EMPTY.(registered := {a.workflow}, offered := [a, b], hand := [a], sent := [b]);
  }
}
