/** The whole import: windows filled by backfills, over any passes, failures and retries. */
module ImportCoverage {
  import opened Wrappers
  import opened Backfill
  import Import = HistoryImport

  /** A pass with what its backfill of the window starting at a cursor collected. */
  datatype Filling = Filling(env: Import.Env, collected: int -> Gathered)

  function Envs(fillings: seq<Filling>): (envs: seq<Import.Env>)
    ensures |envs| == |fillings| && forall k :: 0 <= k < |envs| ==> envs[k] == fillings[k].env
  {
    seq(|fillings|, k requires 0 <= k < |fillings| => fillings[k].env)
  }

  /** The end of the window starting at a cursor. */
  function WindowEnd(c: Import.Config, until: int, from: int): int { Min(until, from + c.windowMs) }

  /** Where a pass takes a window for complete, its backfill has what `BackfillBindings` promises of that. */
  ghost predicate Fills(c: Import.Config, until: int, transport: Transport, bindings: seq<Binding>,
                        workspace: int, f: Filling)
  {
    forall from :: f.env.complete(from) ==>
      && Tidy(f.collected(from), from, WindowEnd(c, until, from))
      && BindingsCovered(f.collected(from), transport, bindings, workspace, from, WindowEnd(c, until, from))
  }

  /** One window filled for a pass, which takes it for complete when the report says so. */
  method FillWindow(c: Import.Config, until: int, transport: Transport, bindings: seq<Binding>, workspace: int,
                    ingress: Ingress, from: int, limit: Option<int>)
    returns (report: Report, ghost g: Gathered, ghost sent: seq<int>)
    ensures report.complete && ThreadsNewestFirst(transport) ==>
              && Tidy(g, from, WindowEnd(c, until, from))
              && BindingsCovered(g, transport, bindings, workspace, from, WindowEnd(c, until, from))
              && sent == Sent(g, ingress, |g.order|)
    ensures report.complete <==> !report.truncated && report.errors == 0
    ensures Faultless(transport, bindings, workspace, ingress) && !report.complete ==>
              report.truncated && |g.order| == Clamp(limit, 1_000, 1, 5_000)
  {
    var till := Min(until, from + c.windowMs);
    report, g, sent := BackfillBindings(transport, bindings, workspace, ingress, from, till, limit);
  }

  ghost predicate Listed(pages: seq<seq<Message>>, m: Message) {
    exists p :: 0 <= p < |pages| && m in pages[p]
  }

  /** The window was filled with the message, and the message was handed to ingestion if it is one to ingest. */
  ghost predicate Archived(ingress: Ingress, g: Gathered, m: Message) {
    && m.id.Some? && m.id.value in g.messages && EachOnce(g)
    && var kept := g.messages[m.id.value].message;
       m.id.value in Sent(g, ingress, |g.order|) <==> ingress.readable(kept) && !kept.fromBot
  }

  lemma ListedIsArchived(ingress: Ingress, g: Gathered, pages: seq<seq<Message>>, channel: int, m: Message,
                         since: int, until: int)
    requires Tidy(g, since, until) && AllCollected(g, pages, channel, since, until)
    requires Listed(pages, m) && InWindow(m, since, until)
    ensures Archived(ingress, g, m)
  {
    var p :| 0 <= p < |pages| && m in pages[p];
    var i :| 0 <= i < |pages[p]| && pages[p][i] == m;
    assert PageCollected(g, pages[p], channel, since, until) && Collected(g, pages[p][i], channel, since, until);
    SentExactly(g, ingress, m.id.value);
  }

  /** Where a serving binding finds a message: in its chat, its thread, or a thread its chat shows in the window. */
  ghost predicate Owes(transport: Transport, b: Binding, m: Message, since: int, until: int) {
    && b.channel.Some?
    && (|| Listed(transport.pages(Chat, b.channel.value), m)
        || (b.thread.Some? && Listed(transport.pages(Thread, b.thread.value), m))
        || exists t :: SeenInChat(transport.pages(Chat, b.channel.value), t, since, until)
                       && Listed(transport.pages(Thread, t), m))
  }

  lemma OwedIsArchived(ingress: Ingress, transport: Transport, g: Gathered, b: Binding, m: Message,
                       since: int, until: int)
    requires Tidy(g, since, until) && BindingCovered(g, transport, b, since, until)
    requires Owes(transport, b, m, since, until) && InWindow(m, since, until)
    ensures Archived(ingress, g, m)
  {
    var channel := b.channel.value;
    if Listed(transport.pages(Chat, channel), m) {
      ListedIsArchived(ingress, g, transport.pages(Chat, channel), channel, m, since, until);
    } else if b.thread.Some? && Listed(transport.pages(Thread, b.thread.value), m) {
      ListedIsArchived(ingress, g, transport.pages(Thread, b.thread.value), channel, m, since, until);
    } else {
      var t :| SeenInChat(transport.pages(Chat, channel), t, since, until) && Listed(transport.pages(Thread, t), m);
      ListedIsArchived(ingress, g, transport.pages(Thread, t), channel, m, since, until);
    }
  }

  /**
    A completed import, whatever passes, failures and retries it took: every
    timestamped undeleted message of [since, until] that a serving binding owes in
    the window of its time was collected by the very pass that finished that
    window, and handed to ingestion exactly if it is readable and a human's.
   */
  lemma CompletedImportArchives(c: Import.Config, since: int, until: int, analyze: bool, fillings: seq<Filling>,
                                transport: Transport, bindings: seq<Binding>, workspace: int, ingress: Ingress,
                                b: Binding, m: Message, t: int)
    returns (i: nat, k: nat)
    requires Import.Sound(c) && since < until
    requires forall f :: f in fillings ==> Fills(c, until, transport, bindings, workspace, f)
    requires Import.RunPasses(c, Import.NewJob(since, until, analyze), Envs(fillings)).completed
    requires b in bindings && Serves(b, workspace)
    requires SentAt(m, t) && since <= t <= until && !m.deleted && m.id.Some?
    ensures var start := Import.NewJob(since, until, analyze);
            var done := Import.RunPasses(c, start, Envs(fillings)).done;
            && i < |done| && k < |fillings| && Import.FinishedBy(c, start, Envs(fillings), i, k)
            && done[i].from <= t <= Min(until, done[i].from + c.windowMs)
            && (Owes(transport, b, m, done[i].from, WindowEnd(c, until, done[i].from)) ==>
                  Archived(ingress, fillings[k].collected(done[i].from), m))
  {
    i, k := Import.CompletedMeansCovered(c, since, until, analyze, Envs(fillings), t);
    var from := Import.RunPasses(c, Import.NewJob(since, until, analyze), Envs(fillings)).done[i].from;
    InWindowExact(m, t, from, WindowEnd(c, until, from));
    assert fillings[k] in fillings;
    var g := fillings[k].collected(from);
    assert BindingCovered(g, transport, b, from, WindowEnd(c, until, from));
    if Owes(transport, b, m, from, WindowEnd(c, until, from)) {
      OwedIsArchived(ingress, transport, g, b, m, from, WindowEnd(c, until, from));
    }
  }
}
