/**
  Replaying chat history in a time window: paged scans of chats, then of
  threads, then ingestion in time order.
 */
module Backfill {
  import opened Wrappers
  import opened Lookup
  import opened Ordering

  datatype Kind = Chat | Thread

  /** `created` is the raw numeric timestamp, in seconds or milliseconds. */
  datatype Message = Message(id: Option<int>, created: Option<int>, deleted: bool, thread: Option<int>, fromBot: bool)

  function TimestampMs(raw: Option<int>): Option<int> {
    if raw.None? || raw.value <= 0 then None
    else if raw.value < 10_000_000_000 then Some(raw.value * 1000)
    else raw
  }

  /**
    The platform: the pages of each container, whether the n-th call throws,
    whether looking up a chat throws. A page token is the index of the next page.
   */
  datatype Transport = Transport(pages: (Kind, int) -> seq<seq<Message>>, down: nat -> bool, unknownChat: int -> bool)

  datatype Route = Route(channel: int, knownThreads: seq<int>)

  datatype IngestResult = Accepted | Duplicate | Ignored | Threw

  /** What ingestion does with a message: whether it can be normalised, and how ingesting its id ends. */
  datatype Ingress = Ingress(readable: Message -> bool, ingest: int -> IngestResult)

  /** No call of a page ever fails. */
  ghost predicate AlwaysUp(transport: Transport) { forall n: nat :: !transport.down(n) }

  /** No chat to look up is unknown. */
  predicate AllKnownChats(transport: Transport, routes: seq<Route>) {
    forall r :: r in routes ==> !transport.unknownChat(r.channel)
  }

  ghost predicate NeverThrows(ingress: Ingress) { forall id :: !ingress.ingest(id).Threw? }

  predicate InWindow(m: Message, since: int, until: int) {
    var ms := TimestampMs(m.created);
    ms.Some? && since <= ms.value <= until && !m.deleted && m.id.Some?
  }

  /** The message was sent at moment t, in milliseconds; its stamp counts seconds up to ten digits. */
  predicate SentAt(m: Message, t: int) {
    && m.created.Some? && m.created.value > 0
    && (if m.created.value < 10_000_000_000 then t == m.created.value * 1_000 else t == m.created.value)
  }

  /** From May 1970 on a stamp in seconds and the same one in milliseconds name one moment. */
  lemma SecondsOrMillis(seconds: int)
    requires 10_000_000 <= seconds < 10_000_000_000
    ensures TimestampMs(Some(seconds)) == TimestampMs(Some(seconds * 1_000)) == Some(seconds * 1_000)
  {
  }

  lemma InWindowExact(m: Message, t: int, since: int, until: int)
    requires SentAt(m, t)
    ensures TimestampMs(m.created) == Some(t)
    ensures InWindow(m, since, until) <==> since <= t <= until && !m.deleted && m.id.Some?
  {
  }

  /** Pages are listed newest first: a timestamped message is never newer than one listed before it. */
  ghost predicate NewestFirst(pages: seq<seq<Message>>) {
    forall p, i, q, k ::
      0 <= p < |pages| && 0 <= i < |pages[p]| && 0 <= q < |pages| && 0 <= k < |pages[q]| && p < q ==>
        OlderOrUndated(pages[p][i], pages[q][k])
  }

  predicate OlderOrUndated(a: Message, b: Message) {
    TimestampMs(a.created).Some? && TimestampMs(b.created).Some? ==>
      TimestampMs(b.created).value <= TimestampMs(a.created).value
  }

  datatype Entry = Entry(channel: int, message: Message)

  /** What a run has gathered so far. `order` lists the ids as a Map keeps them. */
  datatype Gathered = Gathered(
    messages: map<int, Entry>, order: seq<int>, discovered: seq<(int, int)>, scanned: nat, truncated: bool, errors: nat)

  /** A message in the window is among the collected ones, and its thread among the discovered ones. */
  predicate Collected(g: Gathered, m: Message, channel: int, since: int, until: int) {
    InWindow(m, since, until) ==>
      && m.id.value in g.messages
      && (m.thread.Some? ==> (channel, m.thread.value) in g.discovered)
  }

  predicate PageCollected(g: Gathered, page: seq<Message>, channel: int, since: int, until: int) {
    forall i :: 0 <= i < |page| ==> Collected(g, page[i], channel, since, until)
  }

  predicate AllCollected(g: Gathered, pages: seq<seq<Message>>, channel: int, since: int, until: int) {
    forall p :: 0 <= p < |pages| ==> PageCollected(g, pages[p], channel, since, until)
  }

  /** Nothing collected is lost, and trouble is remembered. */
  predicate Grows(a: Gathered, b: Gathered) {
    && a.messages.Keys <= b.messages.Keys && a.discovered <= b.discovered
    && a.errors <= b.errors && a.scanned <= b.scanned && (a.truncated ==> b.truncated)
  }

  lemma StillCollected(a: Gathered, b: Gathered, pages: seq<seq<Message>>, channel: int, since: int, until: int)
    requires AllCollected(a, pages, channel, since, until) && Grows(a, b)
    ensures AllCollected(b, pages, channel, since, until)
  {
  }

  predicate TooOld(m: Message, since: int) {
    var ms := TimestampMs(m.created);
    ms.Some? && ms.value < since
  }

  predicate HasTooOld(page: seq<Message>, since: int) {
    exists i :: 0 <= i < |page| && TooOld(page[i], since)
  }

  lemma OneMoreTooOld(page: seq<Message>, i: nat, since: int)
    requires i < |page|
    ensures HasTooOld(page[..i + 1], since) <==> HasTooOld(page[..i], since) || TooOld(page[i], since)
  {
  }

  /** Stopping at the first page with a message from before the window loses nothing. */
  lemma StopLosesNothing(g: Gathered, pages: seq<seq<Message>>, at: nat, channel: int, since: int, until: int)
    requires at < |pages| && NewestFirst(pages) && HasTooOld(pages[at], since)
    requires AllCollected(g, pages[..at + 1], channel, since, until)
    ensures AllCollected(g, pages, channel, since, until)
  {
  }

  datatype Report = Report(
    complete: bool, replayed: nat, duplicates: nat, ignored: nat, failed: nat, skipped: nat,
    truncated: bool, errors: nat)

  // --------------------------------------------------------------- coverage

  function ThreadIds(channel: int, known: seq<int>, discovered: seq<(int, int)>): (ids: seq<int>)
    ensures forall t :: t in ids <==> t in known || (channel, t) in discovered
  {
    if discovered == [] then known
    else
      var n := |discovered| - 1;
      assert discovered == discovered[..n] + [discovered[n]];
      var ids := ThreadIds(channel, known, discovered[..n]);
      if discovered[n].0 == channel && discovered[n].1 !in ids then ids + [discovered[n].1] else ids
  }

  /** A message of the window in this chat belongs to the thread. */
  ghost predicate SeenInChat(chat: seq<seq<Message>>, thread: int, since: int, until: int) {
    exists p, i :: 0 <= p < |chat| && 0 <= i < |chat[p]|
                   && InWindow(chat[p][i], since, until) && chat[p][i].thread == Some(thread)
  }

  predicate ChatCollected(g: Gathered, transport: Transport, r: Route, since: int, until: int) {
    AllCollected(g, transport.pages(Chat, r.channel), r.channel, since, until)
  }

  ghost predicate ThreadsCollected(g: Gathered, transport: Transport, r: Route, threads: seq<int>,
                                   since: int, until: int)
  {
    forall t :: t in threads ==> AllCollected(g, transport.pages(Thread, t), r.channel, since, until)
  }

  /** Everything a route is responsible for: its chat, its known threads, and the threads its chat shows. */
  ghost predicate RouteCovered(g: Gathered, transport: Transport, r: Route, since: int, until: int) {
    && ChatCollected(g, transport, r, since, until)
    && forall t :: t in r.knownThreads || SeenInChat(transport.pages(Chat, r.channel), t, since, until) ==>
         AllCollected(g, transport.pages(Thread, t), r.channel, since, until)
  }

  lemma ThreadsStay(a: Gathered, b: Gathered, transport: Transport, r: Route, threads: seq<int>, since: int, until: int)
    requires ThreadsCollected(a, transport, r, threads, since, until) && Grows(a, b)
    ensures ThreadsCollected(b, transport, r, threads, since, until)
  {
  }

  lemma RouteStays(a: Gathered, b: Gathered, transport: Transport, r: Route, since: int, until: int)
    requires RouteCovered(a, transport, r, since, until) && Grows(a, b)
    ensures RouteCovered(b, transport, r, since, until)
  {
  }

  /** A route is covered once its chat and all the threads listed for it are collected. */
  lemma RouteDone(g: Gathered, transport: Transport, r: Route, listed: seq<(int, int)>, since: int, until: int)
    requires ChatCollected(g, transport, r, since, until)
    requires ThreadsCollected(g, transport, r, ThreadIds(r.channel, r.knownThreads, listed), since, until)
    requires forall t :: SeenInChat(transport.pages(Chat, r.channel), t, since, until) ==> (r.channel, t) in listed
    ensures RouteCovered(g, transport, r, since, until)
  {
  }

  /** Collecting a chat discovers every thread it shows. */
  lemma ChatDiscovers(g: Gathered, transport: Transport, r: Route, t: int, since: int, until: int)
    requires ChatCollected(g, transport, r, since, until)
    requires SeenInChat(transport.pages(Chat, r.channel), t, since, until)
    ensures (r.channel, t) in g.discovered
  {
  }

  /** The platform lists every thread newest first. */
  ghost predicate ThreadsNewestFirst(transport: Transport) {
    forall t :: NewestFirst(transport.pages(Thread, t))
  }

  // --------------------------------------------------------------- ingestion

  function SlotFor(g: Gathered, i: nat): Slot
    requires i < |g.order| && g.order[i] in g.messages
  {
    var ms := TimestampMs(g.messages[g.order[i]].message.created);
    Slot(if ms.Some? then ms.value else 0, g.order[i], 0, i)
  }

  predicate Known(g: Gathered) { forall i :: 0 <= i < |g.order| ==> g.order[i] in g.messages }

  function ReplaySlots(g: Gathered): (r: seq<Slot>)
    requires Known(g)
    ensures |r| == |g.order| && forall i :: 0 <= i < |r| ==> r[i] == SlotFor(g, i)
  {
    seq(|g.order|, i requires 0 <= i < |g.order| => SlotFor(g, i))
  }

  lemma ReplaySorted(g: Gathered, r: seq<Slot>)
    requires Known(g) && r == Sorted(ReplaySlots(g))
    ensures |r| == |g.order| && DistinctIndices(r) && Ascending(r)
    ensures forall p :: 0 <= p < |r| ==> r[p].index < |g.order| && r[p] == SlotFor(g, r[p].index)
  {
    var slots := ReplaySlots(g);
    SortedAscending(slots);
    forall p | 0 <= p < |r| ensures r[p].index < |g.order| && r[p] == SlotFor(g, r[p].index) {
      assert r[p] in slots;
      var i :| 0 <= i < |slots| && slots[i] == r[p];
    }
  }

  /** The positions of the collected messages in (create time, id) order. */
  function ReplayOrder(g: Gathered): (r: seq<Slot>)
    requires Known(g)
    ensures |r| == |g.order| && DistinctIndices(r) && Ascending(r)
    ensures forall p :: 0 <= p < |r| ==> r[p].index < |g.order| && r[p] == SlotFor(g, r[p].index)
  {
    ReplaySorted(g, Sorted(ReplaySlots(g)));
    Sorted(ReplaySlots(g))
  }

  /** The id replayed at position p. */
  function Replayed(g: Gathered, p: nat): (id: int)
    requires Known(g) && p < |g.order|
    ensures id in g.messages
  {
    g.order[ReplayOrder(g)[p].index]
  }

  predicate Earlier(g: Gathered, a: int, b: int)
    requires a in g.messages && b in g.messages
  {
    var x, y := TimestampMs(g.messages[a].message.created), TimestampMs(g.messages[b].message.created);
    var at, bt := if x.Some? then x.value else 0, if y.Some? then y.value else 0;
    at < bt || (at == bt && a < b)
  }

  predicate Skipped(ingress: Ingress, m: Message) { !ingress.readable(m) || m.fromBot }

  /** The ids sent to ingestion by the first p messages of the replay. */
  function Sent(g: Gathered, ingress: Ingress, p: nat): (ids: seq<int>)
    requires Known(g) && p <= |g.order|
    ensures forall id :: id in ids ==> id in g.messages
  {
    if p == 0 then []
    else
      var id := Replayed(g, p - 1);
      Sent(g, ingress, p - 1) + (if Skipped(ingress, g.messages[id].message) then [] else [id])
  }

  ghost predicate EachOnce(g: Gathered) {
    Known(g) && forall i, j :: 0 <= i < j < |g.order| ==> g.order[i] != g.order[j]
  }

  lemma ReplayedInOrder(g: Gathered, p: nat, q: nat)
    requires EachOnce(g) && p < q < |g.order|
    ensures Replayed(g, p) != Replayed(g, q) && Earlier(g, Replayed(g, p), Replayed(g, q))
  {
  }

  lemma SentStep(g: Gathered, ingress: Ingress, p: nat, id: int)
    requires Known(g) && 0 < p <= |g.order|
    ensures id in Sent(g, ingress, p) <==>
            (id in Sent(g, ingress, p - 1)
             || (id == Replayed(g, p - 1) && !Skipped(ingress, g.messages[Replayed(g, p - 1)].message)))
  {
  }

  lemma {:induction false} SentBefore(g: Gathered, ingress: Ingress, p: nat, q: nat)
    requires EachOnce(g) && p <= q < |g.order|
    ensures forall id :: id in Sent(g, ingress, p) ==> id != Replayed(g, q) && Earlier(g, id, Replayed(g, q))
  {
    if p > 0 {
      SentBefore(g, ingress, p - 1, q);
      ReplayedInOrder(g, p - 1, q);
      forall id | id in Sent(g, ingress, p)
        ensures id != Replayed(g, q) && Earlier(g, id, Replayed(g, q))
      {
        SentStep(g, ingress, p, id);
      }
    }
  }

  /** Each message is sent to ingestion at most once, in strictly ascending (create time, id) order. */
  lemma {:induction false} SentInOrder(g: Gathered, ingress: Ingress, p: nat)
    requires EachOnce(g) && p <= |g.order|
    ensures forall i, j :: 0 <= i < j < |Sent(g, ingress, p)| ==>
              Earlier(g, Sent(g, ingress, p)[i], Sent(g, ingress, p)[j])
  {
    if p > 0 {
      SentInOrder(g, ingress, p - 1);
      SentBefore(g, ingress, p - 1, p - 1);
      var before := Sent(g, ingress, p - 1);
      assert forall i :: 0 <= i < |before| ==> before[i] in before;
    }
  }

  /** Of those whose turn has come exactly the readable messages of humans are sent. */
  lemma {:induction false} SentAtTurn(g: Gathered, ingress: Ingress, p: nat, k: nat)
    requires EachOnce(g) && k < p <= |g.order|
    ensures var m := g.messages[Replayed(g, k)].message;
            Replayed(g, k) in Sent(g, ingress, p) <==> ingress.readable(m) && !m.fromBot
  {
    SentStep(g, ingress, p, Replayed(g, k));
    if k < p - 1 {
      SentAtTurn(g, ingress, p - 1, k);
      ReplayedInOrder(g, k, p - 1);
    } else {
      SentBefore(g, ingress, p - 1, p - 1);
    }
  }

  /** Every collected message has its turn in the replay. */
  lemma TurnOf(g: Gathered, i: nat) returns (p: nat)
    requires EachOnce(g) && i < |g.order|
    ensures p < |g.order| && Replayed(g, p) == g.order[i]
  {
    var slots := ReplaySlots(g);
    SortedAscending(slots);
    assert slots[i] in ReplayOrder(g);
    p :| 0 <= p < |g.order| && ReplayOrder(g)[p] == slots[i];
  }

  /** A collected message is sent to ingestion exactly when it is readable and a human's. */
  lemma SentExactly(g: Gathered, ingress: Ingress, id: int)
    requires EachOnce(g) && id in g.order
    ensures var m := g.messages[id].message;
            id in Sent(g, ingress, |g.order|) <==> ingress.readable(m) && !m.fromBot
  {
    var i :| 0 <= i < |g.order| && g.order[i] == id;
    var p := TurnOf(g, i);
    SentAtTurn(g, ingress, |g.order|, p);
  }

  // ------------------------------------------------------------------ routes

  /** `channel` is the binding's channel id; `thread` the Lark thread a thread-scoped binding names. */
  datatype Binding = Binding(lark: bool, workspace: int, channel: Option<int>, thread: Option<int>)

  predicate Serves(b: Binding, workspace: int) { b.lark && b.workspace == workspace && b.channel.Some? }

  function Channels(routes: seq<Route>): (channels: seq<int>)
    ensures |channels| == |routes|
  {
    seq(|routes|, i requires 0 <= i < |routes| => routes[i].channel)
  }

  /** The channels of the serving bindings, in binding order. */
  function ChannelsOf(bindings: seq<Binding>, workspace: int): (channels: seq<int>)
    ensures forall x :: x in channels <==> exists b :: b in bindings && Serves(b, workspace) && b.channel == Some(x)
  {
    if bindings == [] then []
    else
      var n := |bindings| - 1;
      assert bindings == bindings[..n] + [bindings[n]];
      ChannelsOf(bindings[..n], workspace) +
      (if Serves(bindings[n], workspace) then [bindings[n].channel.value] else [])
  }

  predicate NamesThread(b: Binding, workspace: int, channel: int, thread: int) {
    Serves(b, workspace) && b.channel == Some(channel) && b.thread == Some(thread)
  }

  /** The threads that serving bindings of a channel name, in binding order. */
  function ThreadsOf(bindings: seq<Binding>, workspace: int, channel: int): seq<int> {
    if bindings == [] then []
    else
      var n := |bindings| - 1;
      var b := bindings[n];
      ThreadsOf(bindings[..n], workspace, channel) +
      (if Serves(b, workspace) && b.channel == Some(channel) && b.thread.Some? then [b.thread.value] else [])
  }

  /** One route per bound channel in binding order, knowing exactly the threads its bindings name, in order. */
  ghost predicate RoutesFor(routes: seq<Route>, bindings: seq<Binding>, workspace: int) {
    && Channels(routes) == Dedupe(ChannelsOf(bindings, workspace))
    && forall k :: 0 <= k < |routes| ==>
         routes[k].knownThreads == Dedupe(ThreadsOf(bindings, workspace, routes[k].channel))
  }

  function WithThread(known: seq<int>, thread: Option<int>): (r: seq<int>) {
    if thread.Some? && thread.value !in known then known + [thread.value] else known
  }

  function Routing(routes: seq<Route>, channel: int, thread: Option<int>): (r: seq<Route>) {
    var k := First(Channels(routes), channel);
    if k == |routes| then routes + [Route(channel, WithThread([], thread))]
    else routes[k := Route(channel, WithThread(routes[k].knownThreads, thread))]
  }

  lemma ChannelsMore(bindings: seq<Binding>, b: Binding, workspace: int)
    ensures ChannelsOf(bindings + [b], workspace) ==
            ChannelsOf(bindings, workspace) + (if Serves(b, workspace) then [b.channel.value] else [])
  {
    assert (bindings + [b])[..|bindings|] == bindings;
  }

  lemma ThreadsMore(bindings: seq<Binding>, b: Binding, workspace: int, channel: int)
    ensures Dedupe(ThreadsOf(bindings + [b], workspace, channel)) ==
            WithThread(Dedupe(ThreadsOf(bindings, workspace, channel)),
                       if Serves(b, workspace) && b.channel == Some(channel) then b.thread else None)
  {
    assert (bindings + [b])[..|bindings|] == bindings;
    var before, now := ThreadsOf(bindings, workspace, channel), ThreadsOf(bindings + [b], workspace, channel);
    assert before + [] == before;
    assert now != before ==> now[..|before|] == before;
  }

  lemma {:induction false} ThreadsExact(bindings: seq<Binding>, workspace: int, channel: int, t: int)
    ensures t in ThreadsOf(bindings, workspace, channel) <==>
            exists b :: b in bindings && NamesThread(b, workspace, channel, t)
  {
    if bindings != [] {
      var n := |bindings| - 1;
      assert bindings == bindings[..n] + [bindings[n]];
      ThreadsExact(bindings[..n], workspace, channel, t);
      if NamesThread(bindings[n], workspace, channel, t) {
        assert bindings[n] in bindings;
      } else if b :| b in bindings && NamesThread(b, workspace, channel, t) {
        assert b in bindings[..n];
      }
    }
  }

  lemma {:induction false} NoThreadsYet(bindings: seq<Binding>, workspace: int, channel: int)
    requires channel !in ChannelsOf(bindings, workspace)
    ensures ThreadsOf(bindings, workspace, channel) == []
  {
    if bindings != [] {
      var n := |bindings| - 1;
      ChannelsMore(bindings[..n], bindings[n], workspace);
      assert bindings == bindings[..n] + [bindings[n]];
      NoThreadsYet(bindings[..n], workspace, channel);
    }
  }

  lemma RoutingChannels(routes: seq<Route>, channel: int, thread: Option<int>)
    ensures Channels(Routing(routes, channel, thread)) ==
            if channel in Channels(routes) then Channels(routes) else Channels(routes) + [channel]
  {
    var before, now := Channels(routes), Routing(routes, channel, thread);
    if channel in before {
      assert First(before, channel) < |before|;
      assert Channels(now) == before;
    } else {
      assert Channels(now) == before + [channel];
    }
  }

  lemma RoutedChannels(routes: seq<Route>, bindings: seq<Binding>, b: Binding, workspace: int)
    requires RoutesFor(routes, bindings, workspace) && Serves(b, workspace)
    ensures Channels(Routing(routes, b.channel.value, b.thread)) == Dedupe(ChannelsOf(bindings + [b], workspace))
  {
    ChannelsMore(bindings, b, workspace);
    DedupeMore(ChannelsOf(bindings, workspace), b.channel.value);
    RoutingChannels(routes, b.channel.value, b.thread);
  }

  lemma RoutedThreads(routes: seq<Route>, bindings: seq<Binding>, b: Binding, workspace: int, i: nat)
    requires RoutesFor(routes, bindings, workspace) && Serves(b, workspace)
    requires i < |Routing(routes, b.channel.value, b.thread)|
    ensures var r := Routing(routes, b.channel.value, b.thread)[i];
            r.knownThreads == Dedupe(ThreadsOf(bindings + [b], workspace, r.channel))
  {
    var channel := b.channel.value;
    var before, r := Channels(routes), Routing(routes, channel, b.thread)[i];
    ThreadsMore(bindings, b, workspace, r.channel);
    if i == |routes| {
      assert channel !in before;
      NoThreadsYet(bindings, workspace, channel);
    } else {
      assert before[i] == routes[i].channel;
      assert i != First(before, channel) ==> before[i] != channel by {
        assert Distinct(before);
      }
    }
  }

  lemma RoutedMore(routes: seq<Route>, bindings: seq<Binding>, b: Binding, workspace: int)
    requires RoutesFor(routes, bindings, workspace) && Serves(b, workspace)
    ensures RoutesFor(Routing(routes, b.channel.value, b.thread), bindings + [b], workspace)
  {
    var now := Routing(routes, b.channel.value, b.thread);
    RoutedChannels(routes, bindings, b, workspace);
    forall i | 0 <= i < |now|
      ensures now[i].knownThreads == Dedupe(ThreadsOf(bindings + [b], workspace, now[i].channel))
    {
      RoutedThreads(routes, bindings, b, workspace, i);
    }
  }

  lemma RoutedAlready(routes: seq<Route>, bindings: seq<Binding>, b: Binding, workspace: int)
    requires RoutesFor(routes, bindings, workspace) && !Serves(b, workspace)
    ensures RoutesFor(routes, bindings + [b], workspace)
  {
    ChannelsMore(bindings, b, workspace);
    assert ChannelsOf(bindings, workspace) + [] == ChannelsOf(bindings, workspace);
    forall i | 0 <= i < |routes|
      ensures routes[i].knownThreads == Dedupe(ThreadsOf(bindings + [b], workspace, routes[i].channel))
    {
      ThreadsMore(bindings, b, workspace, routes[i].channel);
    }
  }

  /** Grouping the bindings by channel. */
  method RoutesOf(bindings: seq<Binding>, workspace: int) returns (routes: seq<Route>)
    ensures RoutesFor(routes, bindings, workspace)
  {
    routes := [];
    for i := 0 to |bindings|
      invariant RoutesFor(routes, bindings[..i], workspace)
    {
      var b := bindings[i];
      assert bindings[..i + 1] == bindings[..i] + [b];
      if Serves(b, workspace) {
        RoutedMore(routes, bindings[..i], b, workspace);
        routes := Routing(routes, b.channel.value, b.thread);
      } else {
        RoutedAlready(routes, bindings[..i], b, workspace);
      }
    }
    assert bindings[..|bindings|] == bindings;
  }

  /** Every serving binding has its route, and every route and known thread comes from a serving binding. */
  lemma RoutesExact(routes: seq<Route>, bindings: seq<Binding>, workspace: int)
    requires RoutesFor(routes, bindings, workspace)
    ensures Distinct(Channels(routes))
    ensures forall b :: b in bindings && Serves(b, workspace) ==> exists r :: r in routes && RouteOf(r, b)
    ensures forall r :: r in routes ==>
              exists b :: b in bindings && Serves(b, workspace) && b.channel == Some(r.channel)
    ensures forall r, t :: r in routes && t in r.knownThreads ==>
              exists b :: b in bindings && NamesThread(b, workspace, r.channel, t)
  {
    forall b | b in bindings && Serves(b, workspace)
      ensures exists r :: r in routes && RouteOf(r, b)
    {
      assert b.channel.value in ChannelsOf(bindings, workspace);
      var k := First(Channels(routes), b.channel.value);
      assert Channels(routes)[k] == routes[k].channel && routes[k] in routes;
      if b.thread.Some? {
        assert NamesThread(b, workspace, routes[k].channel, b.thread.value);
        ThreadsExact(bindings, workspace, routes[k].channel, b.thread.value);
      }
    }
    forall r | r in routes
      ensures exists b :: b in bindings && Serves(b, workspace) && b.channel == Some(r.channel)
      ensures forall t :: t in r.knownThreads ==> exists b :: b in bindings && NamesThread(b, workspace, r.channel, t)
    {
      var k :| 0 <= k < |routes| && routes[k] == r;
      assert Channels(routes)[k] in Channels(routes);
      assert r.channel in ChannelsOf(bindings, workspace);
      forall t | t in r.knownThreads
        ensures exists b :: b in bindings && NamesThread(b, workspace, r.channel, t)
      {
        ThreadsExact(bindings, workspace, r.channel, t);
      }
    }
  }

  predicate RouteOf(r: Route, b: Binding) {
    b.channel == Some(r.channel) && (b.thread.Some? ==> b.thread.value in r.knownThreads)
  }

  class Run {
    const transport: Transport
    const since: int
    const until: int
    const maxMessages: nat
    var messages: map<int, Entry>
    var order: seq<int>
    var discovered: seq<(int, int)>
    var scanned: nat
    var truncated: bool
    var errors: nat
    var calls: nat

    constructor (transport: Transport, since: int, until: int, limit: Option<int>)
      ensures this.transport == transport && this.since == since && this.until == until
      ensures maxMessages == Clamp(limit, 1_000, 1, 5_000)
      ensures Now() == Gathered(map[], [], [], 0, false, 0)
      ensures Valid()
    {
      this.transport, this.since, this.until := transport, since, until;
      maxMessages := Clamp(limit, 1_000, 1, 5_000);
      messages, order, discovered := map[], [], [];
      scanned, truncated, errors, calls := 0, false, 0, 0;
    }

    function Now(): Gathered
      reads this
    {
      Gathered(messages, order, discovered, scanned, truncated, errors)
    }

    /** Never more than maxMessages; each id once; only messages of the window. */
    ghost predicate Valid()
      reads this
    {
      && |order| <= maxMessages
      && (forall i, j :: 0 <= i < j < |order| ==> order[i] != order[j])
      && (forall id :: id in messages <==> id in order)
      && (forall id :: id in messages ==>
            messages[id].message.id == Some(id) && InWindow(messages[id].message, since, until))
    }

    /** `messages.set(id, …)` and the discovery of the message's thread. */
    method Keep(route: Route, m: Message)
      requires Valid() && InWindow(m, since, until)
      requires m.id.value in messages || |order| < maxMessages
      modifies this`messages, this`order, this`discovered
      ensures Valid() && Grows(old(Now()), Now())
      ensures messages == old(messages)[m.id.value := Entry(route.channel, m)]
      ensures m.thread.Some? ==> (route.channel, m.thread.value) in discovered
    {
      if m.id.value !in messages {
        order := order + [m.id.value];
      }
      messages := messages[m.id.value := Entry(route.channel, m)];
      if m.thread.Some? && (route.channel, m.thread.value) !in discovered {
        discovered := discovered + [(route.channel, m.thread.value)];
      }
    }

    /** One message of a page. `older` reports a thread message from before the window. */
    method ScanMessage(route: Route, kind: Kind, m: Message) returns (older: bool)
      requires Valid() && !truncated
      modifies this`messages, this`order, this`discovered, this`scanned, this`truncated
      ensures Valid() && Grows(old(Now()), Now())
      ensures !truncated ==> Collected(Now(), m, route.channel, since, until) && scanned == old(scanned) + 1
      ensures truncated ==> |order| == maxMessages
      ensures older ==> kind.Thread? && TooOld(m, since)
      ensures kind.Thread? && TooOld(m, since) && since <= until ==> older
    {
      scanned := scanned + 1;
      older := false;
      var ms := TimestampMs(m.created);
      if ms.None? || ms.value > until {
        return;
      }
      if ms.value < since {
        older := kind.Thread?;
        return;
      }
      if m.id.Some? && !m.deleted {
        if m.id.value !in messages && |order| >= maxMessages {
          truncated := true;
        } else {
          Keep(route, m);
        }
      }
    }

    /** One page. */
    method ScanPage(route: Route, kind: Kind, page: seq<Message>) returns (older: bool)
      requires Valid() && !truncated
      modifies this`messages, this`order, this`discovered, this`scanned, this`truncated
      ensures Valid() && Grows(old(Now()), Now())
      ensures !truncated ==> PageCollected(Now(), page, route.channel, since, until) && scanned == old(scanned) + |page|
      ensures truncated ==> |order| == maxMessages
      ensures older ==> kind.Thread? && HasTooOld(page, since)
      ensures !truncated && kind.Thread? && HasTooOld(page, since) && since <= until ==> older
    {
      older := false;
      var i := 0;
      while i < |page| && !truncated
        invariant 0 <= i <= |page|
        invariant Valid() && Grows(old(Now()), Now())
        invariant !truncated ==>
          AllCollected(Now(), [page[..i]], route.channel, since, until) && scanned == old(scanned) + i
        invariant truncated ==> |order| == maxMessages
        invariant older ==> kind.Thread? && HasTooOld(page, since)
        invariant !truncated && kind.Thread? && HasTooOld(page[..i], since) && since <= until ==> older
        decreases |page| - i, !truncated
      {
        ghost var before := Now();
        var stale := ScanMessage(route, kind, page[i]);
        OneMoreTooOld(page, i, since);
        older := older || stale;
        if !truncated {
          StillCollected(before, Now(), [page[..i]], route.channel, since, until);
          OneMore(Now(), page, i, route.channel, since, until);
          i := i + 1;
        }
      }
      if !truncated {
        assert page[..|page|] == page && [page][0] == page;
      }
    }

    ghost predicate InOrder(kind: Kind, container: int) {
      kind.Thread? ==> NewestFirst(transport.pages(Thread, container))
    }

    /** A page that arrived: scan it, and stop after it if it is the last or reaches back past the window. */
    method CollectPage(route: Route, kind: Kind, container: int, next: nat) returns (finished: bool)
      requires Valid() && !truncated && next < |transport.pages(kind, container)|
      requires AllCollected(Now(), transport.pages(kind, container)[..next], route.channel, since, until)
      modifies this`messages, this`order, this`discovered, this`scanned, this`truncated
      ensures Valid() && Grows(old(Now()), Now())
      ensures truncated ==> |order| == maxMessages
      ensures !truncated && !finished ==>
                && next + 1 < |transport.pages(kind, container)|
                && AllCollected(Now(), transport.pages(kind, container)[..next + 1], route.channel, since, until)
      ensures !truncated && finished && InOrder(kind, container) ==>
                AllCollected(Now(), transport.pages(kind, container), route.channel, since, until)
    {
      var pages := transport.pages(kind, container);
      ghost var before := Now();
      var older := ScanPage(route, kind, pages[next]);
      finished := older || next + 1 == |pages|;
      if !truncated {
        StillCollected(before, Now(), pages[..next], route.channel, since, until);
        OnePageMore(Now(), pages, next, route.channel, since, until);
        if older && InOrder(kind, container) {
          StopLosesNothing(Now(), pages, next, route.channel, since, until);
        } else if finished {
          assert next + 1 == |pages| ==> pages[..next + 1] == pages;
        }
      }
    }

    /**
      The paged scan of one container. Without truncation and without a new
      error every message of the container in the window has been collected,
      provided that a thread arrives newest first.
     */
    method Collect(route: Route, kind: Kind, container: int)
      requires Valid()
      modifies this
      ensures Valid() && Grows(old(Now()), Now())
      ensures InOrder(kind, container) && !truncated && errors == old(errors) ==>
                AllCollected(Now(), transport.pages(kind, container), route.channel, since, until)
      ensures truncated && !old(truncated) ==> |order| == maxMessages
      ensures AlwaysUp(transport) ==> errors == old(errors)
    {
      var pages := transport.pages(kind, container);
      var next := 0;
      var finished := false;
      while !truncated && !finished
        invariant 0 <= next <= |pages|
        invariant Valid() && Grows(old(Now()), Now())
        invariant !truncated && !finished ==>
                    && errors == old(errors) && (next < |pages| || pages == [])
                    && AllCollected(Now(), pages[..next], route.channel, since, until)
        invariant InOrder(kind, container) && !truncated && finished && errors == old(errors) ==>
                    AllCollected(Now(), pages, route.channel, since, until)
        invariant truncated && !old(truncated) ==> |order| == maxMessages
        invariant AlwaysUp(transport) ==> errors == old(errors)
        decreases |pages| - next, !truncated && !finished
      {
        calls := calls + 1;
        if transport.down(calls) {
          errors := errors + 1;
          finished := true;
        } else if pages == [] {
          finished := true;
        } else {
          finished := CollectPage(route, kind, container, next);
          next := if truncated || finished then next else next + 1;
        }
      }
    }

    /** Looking up each chat; a failure is an error but does not stop the run. */
    method LookUpChats(routes: seq<Route>)
      requires Valid()
      modifies this`errors
      ensures Valid() && Grows(old(Now()), Now())
      ensures AllKnownChats(transport, routes) ==> errors == old(errors)
    {
      for i := 0 to |routes|
        invariant Valid() && Grows(old(Now()), Now())
        invariant AllKnownChats(transport, routes) ==> errors == old(errors)
      {
        if transport.unknownChat(routes[i].channel) {
          errors := errors + 1;
        }
      }
    }

    /** First pass: every chat. */
    method CollectChats(routes: seq<Route>)
      requires Valid()
      modifies this
      ensures Valid() && Grows(old(Now()), Now())
      ensures !truncated && errors == old(errors) ==>
        forall r :: r in routes ==> ChatCollected(Now(), transport, r, since, until)
      ensures truncated && !old(truncated) ==> |order| == maxMessages
      ensures AlwaysUp(transport) ==> errors == old(errors)
    {
      var i := 0;
      while i < |routes| && !truncated
        invariant 0 <= i <= |routes|
        invariant Valid() && Grows(old(Now()), Now())
        invariant !truncated && errors == old(errors) ==>
          forall k :: 0 <= k < i ==> ChatCollected(Now(), transport, routes[k], since, until)
        invariant truncated && !old(truncated) ==> |order| == maxMessages
        invariant AlwaysUp(transport) ==> errors == old(errors)
      {
        ghost var before := Now();
        Collect(routes[i], Chat, routes[i].channel);
        if !truncated && errors == old(errors) {
          forall k | 0 <= k < i ensures ChatCollected(Now(), transport, routes[k], since, until) {
            StillCollected(before, Now(), transport.pages(Chat, routes[k].channel), routes[k].channel, since, until);
          }
        }
        i := i + 1;
      }
    }

    /** The threads listed for one route. */
    method CollectThreads(route: Route, threads: seq<int>)
      requires Valid()
      modifies this
      ensures Valid() && Grows(old(Now()), Now())
      ensures ThreadsNewestFirst(transport) && !truncated && errors == old(errors) ==>
        ThreadsCollected(Now(), transport, route, threads, since, until)
      ensures truncated && !old(truncated) ==> |order| == maxMessages
      ensures AlwaysUp(transport) ==> errors == old(errors)
    {
      var i := 0;
      while i < |threads| && !truncated
        invariant 0 <= i <= |threads|
        invariant Valid() && Grows(old(Now()), Now())
        invariant ThreadsNewestFirst(transport) && !truncated && errors == old(errors) ==>
          ThreadsCollected(Now(), transport, route, threads[..i], since, until)
        invariant truncated && !old(truncated) ==> |order| == maxMessages
        invariant AlwaysUp(transport) ==> errors == old(errors)
      {
        ghost var before := Now();
        Collect(route, Thread, threads[i]);
        if ThreadsNewestFirst(transport) && !truncated && errors == old(errors) {
          ThreadsStay(before, Now(), transport, route, threads[..i], since, until);
          assert forall t :: t in threads[..i + 1] ==> t in threads[..i] || t == threads[i];
        }
        i := i + 1;
      }
      assert !truncated ==> threads[..i] == threads;
    }

    /** Second pass: for every route, its known threads and those discovered so far. */
    method CollectAllThreads(routes: seq<Route>)
      requires Valid()
      requires !truncated && errors == 0 ==>
        forall r :: r in routes ==> ChatCollected(Now(), transport, r, since, until)
      modifies this
      ensures Valid() && Grows(old(Now()), Now())
      ensures ThreadsNewestFirst(transport) && !truncated && errors == 0 ==>
        forall r :: r in routes ==> RouteCovered(Now(), transport, r, since, until)
      ensures truncated && !old(truncated) ==> |order| == maxMessages
      ensures AlwaysUp(transport) ==> errors == old(errors)
    {
      var i := 0;
      while i < |routes| && !truncated
        invariant 0 <= i <= |routes|
        invariant Valid() && Grows(old(Now()), Now())
        invariant ThreadsNewestFirst(transport) && !truncated && errors == 0 ==>
          forall k :: 0 <= k < i ==> RouteCovered(Now(), transport, routes[k], since, until)
        invariant truncated && !old(truncated) ==> |order| == maxMessages
        invariant AlwaysUp(transport) ==> errors == old(errors)
      {
        ghost var before := Now();
        var threads := ThreadIds(routes[i].channel, routes[i].knownThreads, discovered);
        CollectThreads(routes[i], threads);
        if ThreadsNewestFirst(transport) && !truncated && errors == 0 {
          ThisRouteDone(old(Now()), before, Now(), routes[i]);
          forall k | 0 <= k < i ensures RouteCovered(Now(), transport, routes[k], since, until) {
            RouteStays(before, Now(), transport, routes[k], since, until);
          }
        }
        i := i + 1;
      }
    }

    lemma ThisRouteDone(start: Gathered, before: Gathered, now: Gathered, r: Route)
      requires Grows(start, before) && Grows(before, now)
      requires ChatCollected(start, transport, r, since, until)
      requires ThreadsCollected(now, transport, r, ThreadIds(r.channel, r.knownThreads, before.discovered),
                                since, until)
      ensures RouteCovered(now, transport, r, since, until)
    {
    }

    /** Ingest what was collected, oldest first. */
    method Replay(ingress: Ingress) returns (report: Report, ghost sent: seq<int>)
      requires Valid()
      modifies this`errors
      ensures Valid() && Grows(old(Now()), Now()) && Known(Now())
      ensures sent == Sent(Now(), ingress, |order|)
      ensures report.replayed + report.failed + report.skipped == |order|
      ensures |sent| == report.replayed + report.failed
      ensures report.duplicates + report.ignored <= report.replayed
      ensures errors == old(errors) + report.failed && report.errors == errors && report.truncated == truncated
      ensures report.complete <==> !truncated && old(errors) == 0 && report.failed == 0
      ensures NeverThrows(ingress) ==> report.failed == 0
    {
      ghost var g := Now();
      AllKnown(g);
      var tally: Tally;
      tally, sent := ReplayLoop(ingress);
      SameReplay(g, Now(), ingress, |order|);
      report := Report(!truncated && errors == 0 && tally.failed == 0, tally.replayed, tally.duplicates, tally.ignored,
                       tally.failed, tally.skipped, truncated, errors);
    }

    method ReplayLoop(ingress: Ingress) returns (tally: Tally, ghost sent: seq<int>)
      requires Known(Now())
      modifies this`errors
      ensures sent == Sent(old(Now()), ingress, |order|)
      ensures |sent| == tally.replayed + tally.failed
      ensures Balanced(tally, |order|)
      ensures errors == old(errors) + tally.failed
      ensures NeverThrows(ingress) ==> tally.failed == 0
    {
      tally := Tally(0, 0, 0, 0, 0);
      sent := [];
      var ordered := ReplayOrder(Now());
      for p := 0 to |ordered|
        invariant sent == Sent(old(Now()), ingress, p) && |sent| == tally.replayed + tally.failed
        invariant Balanced(tally, p)
        invariant errors == old(errors) + tally.failed
        invariant NeverThrows(ingress) ==> tally.failed == 0
      {
        var id := order[ordered[p].index];
        assert id == Replayed(old(Now()), p);
        if Skipped(ingress, messages[id].message) {
          tally := tally.(skipped := tally.skipped + 1);
        } else {
          sent := sent + [id];
          match ingress.ingest(id) {
            case Threw =>
              tally := tally.(failed := tally.failed + 1);
              errors := errors + 1;
            case Duplicate =>
              tally := tally.(replayed := tally.replayed + 1, duplicates := tally.duplicates + 1);
            case Ignored =>
              tally := tally.(replayed := tally.replayed + 1, ignored := tally.ignored + 1);
            case Accepted =>
              tally := tally.(replayed := tally.replayed + 1);
          }
        }
      }
    }

    /** The whole backfill. */
    method Execute(routes: seq<Route>, ingress: Ingress) returns (report: Report, ghost sent: seq<int>)
      requires Valid() && Now() == Gathered(map[], [], [], 0, false, 0)
      modifies this
      ensures Valid() && Known(Now())
      ensures report.complete && ThreadsNewestFirst(transport) ==>
                forall r :: r in routes ==> RouteCovered(Now(), transport, r, since, until)
      ensures report.complete <==> !report.truncated && report.errors == 0
      ensures report.truncated ==> |order| == maxMessages
      ensures report.failed <= report.errors
      ensures AlwaysUp(transport) && AllKnownChats(transport, routes) && NeverThrows(ingress) ==> report.errors == 0
      ensures sent == Sent(Now(), ingress, |order|)
      ensures report.replayed + report.failed + report.skipped == |order| <= maxMessages
      ensures report.duplicates + report.ignored <= report.replayed
    {
      LookUpChats(routes);
      CollectChats(routes);
      if !truncated {
        CollectAllThreads(routes);
      }
      ghost var before := Now();
      report, sent := Replay(ingress);
      if report.complete && ThreadsNewestFirst(transport) {
        forall r | r in routes ensures RouteCovered(Now(), transport, r, since, until) {
          RouteStays(before, Now(), transport, r, since, until);
        }
      }
    }
  }

  /** What a serving binding is owed: its chat, the thread it names, and the threads its chat shows in the window. */
  ghost predicate BindingCovered(g: Gathered, transport: Transport, b: Binding, since: int, until: int) {
    b.channel.Some? ==>
      && AllCollected(g, transport.pages(Chat, b.channel.value), b.channel.value, since, until)
      && (b.thread.Some? ==> AllCollected(g, transport.pages(Thread, b.thread.value), b.channel.value, since, until))
      && forall t :: SeenInChat(transport.pages(Chat, b.channel.value), t, since, until) ==>
           AllCollected(g, transport.pages(Thread, t), b.channel.value, since, until)
  }

  ghost predicate BindingsCovered(g: Gathered, transport: Transport, bindings: seq<Binding>, workspace: int,
                                  since: int, until: int)
  {
    forall b :: b in bindings && Serves(b, workspace) ==> BindingCovered(g, transport, b, since, until)
  }

  /** What is covered is covered by the moment a message was sent, however its stamp is written. */
  lemma CoveredByMoment(g: Gathered, transport: Transport, b: Binding, m: Message, t: int, p: nat, i: nat,
                        since: int, until: int)
    requires BindingCovered(g, transport, b, since, until) && b.channel.Some?
    requires var pages := transport.pages(Chat, b.channel.value); p < |pages| && i < |pages[p]| && pages[p][i] == m
    requires SentAt(m, t) && since <= t <= until && !m.deleted && m.id.Some?
    ensures m.id.value in g.messages
  {
    InWindowExact(m, t, since, until);
    var pages := transport.pages(Chat, b.channel.value);
    assert PageCollected(g, pages[p], b.channel.value, since, until);
    assert Collected(g, pages[p][i], b.channel.value, since, until);
  }

  lemma RoutesCoverBindings(g: Gathered, transport: Transport, routes: seq<Route>,
                            bindings: seq<Binding>, workspace: int, since: int, until: int)
    requires RoutesFor(routes, bindings, workspace)
    requires forall r :: r in routes ==> RouteCovered(g, transport, r, since, until)
    ensures BindingsCovered(g, transport, bindings, workspace, since, until)
  {
    RoutesExact(routes, bindings, workspace);
    forall b | b in bindings && Serves(b, workspace)
      ensures BindingCovered(g, transport, b, since, until)
    {
      var r :| r in routes && RouteOf(r, b);
      assert RouteCovered(g, transport, r, since, until);
    }
  }

  /** Each id is listed once and only messages of the window are held. */
  ghost predicate Tidy(g: Gathered, since: int, until: int) {
    && EachOnce(g)
    && forall id :: id in g.messages ==>
         id in g.order && g.messages[id].message.id == Some(id) && InWindow(g.messages[id].message, since, until)
  }

  /** No page call fails, no chat of a serving binding is unknown, and no ingestion throws. */
  ghost predicate Faultless(transport: Transport, bindings: seq<Binding>, workspace: int, ingress: Ingress) {
    && AlwaysUp(transport) && NeverThrows(ingress)
    && forall b :: b in bindings && Serves(b, workspace) ==> !transport.unknownChat(b.channel.value)
  }

  /**
    The backfill of one window for the bindings of a workspace. A complete report
    means that every serving binding is covered, and that exactly the readable
    messages of humans among the collected ones were ingested, none of them failing.
   */
  method BackfillBindings(transport: Transport, bindings: seq<Binding>, workspace: int, ingress: Ingress,
                          since: int, until: int, limit: Option<int>)
    returns (report: Report, ghost g: Gathered, ghost sent: seq<int>)
    ensures Tidy(g, since, until) && |g.order| <= Clamp(limit, 1_000, 1, 5_000)
    ensures sent == Sent(g, ingress, |g.order|)
    ensures report.complete && ThreadsNewestFirst(transport) ==>
              BindingsCovered(g, transport, bindings, workspace, since, until)
    ensures report.complete <==> !report.truncated && report.errors == 0
    ensures report.truncated ==> |g.order| == Clamp(limit, 1_000, 1, 5_000)
    ensures report.failed <= report.errors
    ensures Faultless(transport, bindings, workspace, ingress) ==> report.errors == 0
    ensures report.replayed + report.failed + report.skipped == |g.order|
    ensures report.duplicates + report.ignored <= report.replayed
  {
    var run := new Run(transport, since, until, limit);
    var routes := RoutesOf(bindings, workspace);
    RoutesExact(routes, bindings, workspace);
    report, sent := run.Execute(routes, ingress);
    g := run.Now();
    if report.complete && ThreadsNewestFirst(transport) {
      RoutesCoverBindings(g, transport, routes, bindings, workspace, since, until);
    }
  }

  datatype Tally = Tally(replayed: nat, duplicates: nat, ignored: nat, failed: nat, skipped: nat)

  predicate Balanced(t: Tally, total: nat) {
    t.replayed + t.failed + t.skipped == total && t.duplicates + t.ignored <= t.replayed
  }

  lemma AllKnown(g: Gathered)
    requires forall id :: id in g.order ==> id in g.messages
    ensures Known(g)
  {
    forall i | 0 <= i < |g.order| ensures g.order[i] in g.messages {
      var id := g.order[i];
      assert id in g.order;
    }
  }

  /** The error count does not matter to the replay. */
  lemma {:induction false} SameReplay(a: Gathered, b: Gathered, ingress: Ingress, p: nat)
    requires Known(a) && b == a.(errors := b.errors) && p <= |a.order|
    ensures Known(b) && Sent(a, ingress, p) == Sent(b, ingress, p)
  {
    assert ReplaySlots(a) == ReplaySlots(b);
    if p > 0 {
      SameReplay(a, b, ingress, p - 1);
    }
  }

  lemma OneMore(g: Gathered, page: seq<Message>, i: nat, channel: int, since: int, until: int)
    requires i < |page| && AllCollected(g, [page[..i]], channel, since, until)
    requires Collected(g, page[i], channel, since, until)
    ensures AllCollected(g, [page[..i + 1]], channel, since, until)
  {
    assert PageCollected(g, [page[..i]][0], channel, since, until);
    var more := page[..i + 1];
    forall k | 0 <= k < |more| ensures Collected(g, more[k], channel, since, until) {
      if k < i {
        assert page[..i][k] == more[k];
      }
    }
  }

  lemma OnePageMore(g: Gathered, pages: seq<seq<Message>>, p: nat, channel: int, since: int, until: int)
    requires p < |pages| && AllCollected(g, pages[..p], channel, since, until)
    requires PageCollected(g, pages[p], channel, since, until)
    ensures AllCollected(g, pages[..p + 1], channel, since, until)
  {
  }
}
