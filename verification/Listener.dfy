/**
 The worker's subscriptions and its listening loop: which published messages ever
 reach a handler.
 */
module Listener {
  import opened Common
  import opened StateMachine
  import opened Worker

  datatype Subscription = Channel(name: string) | Pattern(glob: string)

  const PREFIX := "evaluation:"
  const LOG_SUFFIX := ":logs"

  const EVENTS: seq<string> := [
    "evaluation:submitted", "evaluation:queued", "evaluation:running",
    "evaluation:completed", "evaluation:failed", "evaluation:cancelled"]

  function Channels(names: seq<string>): seq<Subscription> {
    if names == [] then [] else [Channel(names[0])] + Channels(names[1..])
  }

  /** `subscribe` for six channels, `psubscribe` for the logs. */
  const SUBSCRIPTIONS: seq<Subscription> := Channels(EVENTS) + [Pattern(PREFIX + "*" + LOG_SUFFIX)]

  function LogChannel(id: string): string {
    PREFIX + id + LOG_SUFFIX
  }

  /** Where each message is published. */
  function ChannelOf(msg: Message): string {
    match msg
    case SubmittedMsg(_, _, _, _) => EVENTS[0]
    case QueuedMsg(_, _) => EVENTS[1]
    case RunningMsg(_, _) => EVENTS[2]
    case CompletedMsg(_, _, _, _) => EVENTS[3]
    case FailedMsg(_, _, _) => EVENTS[4]
    case CancelledMsg(_, _) => EVENTS[5]
    case LogMsg(id, _) => LogChannel(id)
  }

  // ----- Redis -----

  /** Redis's glob matching, as far as patterns hold no wildcard but `*`. */
  predicate Glob(pattern: string, s: string)
    decreases |pattern| + |s|
  {
    if pattern == "" then s == ""
    else if pattern[0] == '*' then Glob(pattern[1..], s) || (s != "" && Glob(pattern, s[1..]))
    else s != "" && s[0] == pattern[0] && Glob(pattern[1..], s[1..])
  }

  /** What a subscriber gets to see: the kind tells how the subscription was made. */
  datatype Delivery = Delivery(kind: string, channel: string)

  function DeliveriesTo(sub: Subscription, channel: string): seq<Delivery> {
    match sub
    case Channel(name) => if name == channel then [Delivery("message", channel)] else []
    case Pattern(glob) => if Glob(glob, channel) then [Delivery("pmessage", channel)] else []
  }

  function Deliveries(subs: seq<Subscription>, channel: string): seq<Delivery> {
    if subs == [] then [] else DeliveriesTo(subs[0], channel) + Deliveries(subs[1..], channel)
  }

  // ----- the loop -----

  /** The loop hands on deliveries of kind "message" and drops all others. */
  function HandledOf(deliveries: seq<Delivery>): seq<string> {
    if deliveries == [] then []
    else (if deliveries[0].kind == "message" then [deliveries[0].channel] else []) + HandledOf(deliveries[1..])
  }

  /** The channels on which a published message is handled, one entry per time. */
  function Handled(channel: string): seq<string> {
    HandledOf(Deliveries(SUBSCRIPTIONS, channel))
  }

  function HandleTimes(table: Table, w: World, h: Happening, channels: seq<string>): World
    decreases |channels|
  {
    if channels == [] then w else HandleTimes(table, NextWorld(table, w, h), h, channels[1..])
  }

  function Listen(table: Table, w: World, h: Happening): World {
    if h.Arrives? then HandleTimes(table, w, h, Handled(ChannelOf(h.msg))) else NextWorld(table, w, h)
  }

  function ListenAll(table: Table, w: World, run: seq<Happening>): World
    decreases |run|
  {
    if run == [] then w else ListenAll(table, Listen(table, w, run[0]), run[1..])
  }

  // ----- what matches -----

  lemma {:induction false} GlobLiteral(a: string, pattern: string, s: string)
    requires '*' !in a
    ensures Glob(a + pattern, s) <==> |a| <= |s| && s[..|a|] == a && Glob(pattern, s[|a|..])
  {
    if a == "" {
      assert a + pattern == pattern && s[0..] == s;
    } else {
      assert (a + pattern)[0] == a[0] && (a + pattern)[1..] == a[1..] + pattern;
      if s != "" {
        GlobLiteral(a[1..], pattern, s[1..]);
        if |a| <= |s| {
          assert s[1..][..|a| - 1] == s[..|a|][1..] && s[1..][|a| - 1..] == s[|a|..];
          assert s[..|a|] == [s[0]] + s[..|a|][1..] && a == [a[0]] + a[1..];
        }
      }
    }
  }

  lemma {:induction false} GlobStar(pattern: string, s: string)
    ensures Glob("*" + pattern, s) <==> exists i :: 0 <= i <= |s| && Glob(pattern, s[i..])
  {
    assert ("*" + pattern)[1..] == pattern && s[0..] == s;
    if s != "" {
      GlobStar(pattern, s[1..]);
      if i :| 0 <= i <= |s| - 1 && Glob(pattern, s[1..][i..]) {
        assert s[1..][i..] == s[i + 1..];
      }
      if i :| 0 < i <= |s| && Glob(pattern, s[i..]) {
        assert s[1..][i - 1..] == s[i..];
      }
    }
  }

  lemma GlobExact(a: string, s: string)
    requires '*' !in a
    ensures Glob(a, s) <==> s == a
  {
    GlobLiteral(a, "", s);
    assert a + "" == a;
    if s == a {
      assert s[..|a|] == a && s[|a|..] == "";
    }
    if |a| <= |s| && s[..|a|] == a && s[|a|..] == "" {
      assert s == s[..|a|] + s[|a|..];
    }
  }

  /** The pattern matches the log channels of all evaluations, and nothing else. */
  lemma PatternMatchesExactly(channel: string)
    ensures Glob(PREFIX + "*" + LOG_SUFFIX, channel) <==> exists id :: channel == LogChannel(id)
  {
    hide Glob;
    var rest := if |PREFIX| <= |channel| then channel[|PREFIX|..] else "";
    assert PREFIX + "*" + LOG_SUFFIX == PREFIX + ("*" + LOG_SUFFIX);
    GlobLiteral(PREFIX, "*" + LOG_SUFFIX, channel);
    GlobStar(LOG_SUFFIX, rest);
    forall i | 0 <= i <= |rest| ensures Glob(LOG_SUFFIX, rest[i..]) <==> rest[i..] == LOG_SUFFIX {
      GlobExact(LOG_SUFFIX, rest[i..]);
    }
    if id :| channel == LogChannel(id) {
      assert rest == id + LOG_SUFFIX && rest[|id|..] == LOG_SUFFIX;
    }
    if |PREFIX| <= |channel| && channel[..|PREFIX|] == PREFIX {
      if i :| 0 <= i <= |rest| && rest[i..] == LOG_SUFFIX {
        assert channel == PREFIX + rest && rest == rest[..i] + rest[i..];
        assert channel == LogChannel(rest[..i]);
      }
    }
  }

  /** Their last letters differ. */
  lemma EventsAreNotLogs(channel: string, id: string)
    ensures channel in EVENTS ==> channel != LogChannel(id)
  {
    assert LogChannel(id)[|LogChannel(id)| - 1] == 's';
    assert channel in EVENTS ==> channel[|channel| - 1] != 's';
  }

  lemma EventsDiffer()
    ensures Distinct(EVENTS)
  {
    forall i, j | 0 <= i < j < |EVENTS| ensures EVENTS[i] != EVENTS[j] {
      assert EVENTS[i][11] != EVENTS[j][11] || EVENTS[i][12] != EVENTS[j][12];
    }
  }

  lemma {:induction false} DeliveriesAppend(a: seq<Subscription>, b: seq<Subscription>, channel: string)
    ensures Deliveries(a + b, channel) == Deliveries(a, channel) + Deliveries(b, channel)
  {
    hide DeliveriesTo;
    if a == [] {
      assert a + b == b;
    } else {
      assert (a + b)[1..] == a[1..] + b;
      DeliveriesAppend(a[1..], b, channel);
      assert DeliveriesTo(a[0], channel) + Deliveries(a[1..] + b, channel)
          == DeliveriesTo(a[0], channel) + Deliveries(a[1..], channel) + Deliveries(b, channel);
    }
  }

  lemma {:induction false} DeliveriesOfNames(names: seq<string>, channel: string)
    requires Distinct(names)
    ensures Deliveries(Channels(names), channel) == if channel in names then [Delivery("message", channel)] else []
  {
    if names != [] {
      assert Distinct(names[1..]) by {
        forall i, j | 0 <= i < j < |names| - 1 ensures names[1..][i] != names[1..][j] {
          assert names[i + 1] != names[j + 1];
        }
      }
      DeliveriesOfNames(names[1..], channel);
      assert Channels(names)[1..] == Channels(names[1..]);
    }
  }

  /** Every publication on one of the six channels arrives as a message, on a log channel only by pattern, elsewhere not at all. */
  lemma DeliveredExactly(channel: string)
    ensures Deliveries(SUBSCRIPTIONS, channel)
         == if channel in EVENTS then [Delivery("message", channel)]
            else if exists id :: channel == LogChannel(id) then [Delivery("pmessage", channel)]
            else []
  {
    hide Glob, Distinct, LogChannel;
    var logs := [Pattern(PREFIX + "*" + LOG_SUFFIX)];
    EventsDiffer();
    DeliveriesAppend(Channels(EVENTS), logs, channel);
    DeliveriesOfNames(EVENTS, channel);
    PatternMatchesExactly(channel);
    assert logs[1..] == [];
    if channel in EVENTS {
      forall id ensures channel != LogChannel(id) {
        EventsAreNotLogs(channel, id);
      }
    }
    hide Channels;
  }

  /** So a published message is handled exactly if its channel is one of the six, and then once; a log message never. */
  lemma HandledExactlyWhen(channel: string)
    ensures Handled(channel) == if channel in EVENTS then [channel] else []
  {
    hide Deliveries;
    DeliveredExactly(channel);
    OneDelivery(Delivery("message", channel));
    OneDelivery(Delivery("pmessage", channel));
    assert HandledOf([]) == [];
  }

  lemma OneDelivery(d: Delivery)
    ensures HandledOf([d]) == if d.kind == "message" then [d.channel] else []
  {
    assert [d][1..] == [];
  }

  predicate IsLog(h: Happening) {
    h.Arrives? && h.msg.LogMsg?
  }

  function WithoutLogs(run: seq<Happening>): seq<Happening> {
    if run == [] then [] else (if IsLog(run[0]) then [] else [run[0]]) + WithoutLogs(run[1..])
  }

  lemma ListenOne(table: Table, w: World, h: Happening)
    ensures Listen(table, w, h) == if IsLog(h) then w else NextWorld(table, w, h)
  {
    hide NextWorld, Handled, HandleTimes;
    if h.Arrives? {
      HandledExactlyWhen(ChannelOf(h.msg));
      HandleOnce(table, w, h, ChannelOf(h.msg));
      if h.msg.LogMsg? {
        EventsAreNotLogs(LogChannel(h.msg.id), h.msg.id);
      } else {
        assert ChannelOf(h.msg) in EVENTS;
      }
    }
  }

  lemma HandleOnce(table: Table, w: World, h: Happening, channel: string)
    ensures HandleTimes(table, w, h, [channel]) == NextWorld(table, w, h) && HandleTimes(table, w, h, []) == w
  {
    hide NextWorld;
    assert [channel][1..] == [];
    var w' := NextWorld(table, w, h);
    assert HandleTimes(table, w', h, []) == w';
  }

  /** The worker behaves as if log lines were never published: they are subscribed by pattern only, and the loop drops such deliveries. */
  lemma {:induction false} ListeningDropsExactlyLogs(table: Table, w: World, run: seq<Happening>)
    ensures ListenAll(table, w, run) == RunWorld(table, w, WithoutLogs(run))
    decreases |run|
  {
    hide Listen, NextWorld;
    if run != [] {
      ListenOne(table, w, run[0]);
      var w' := Listen(table, w, run[0]);
      ListeningDropsExactlyLogs(table, w', run[1..]);
      if IsLog(run[0]) {
        assert WithoutLogs(run) == WithoutLogs(run[1..]);
      } else {
        assert WithoutLogs(run)[0] == run[0] && WithoutLogs(run)[1..] == WithoutLogs(run[1..]);
      }
    }
  }
}
