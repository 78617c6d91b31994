/** What trimming a ledger keeps and how long it leaves it. */
module LeaseTrim {
  import opened Wrappers
  import opened Lease

  ghost predicate UniqueIds<P>(s: seq<Job<P>>) {
    forall i, j :: 0 <= i < j < |s| ==> s[i].id != s[j].id
  }

  lemma {:induction false} Partition<P>(s: seq<Job<P>>)
    ensures |LiveJobs(s)| + |EndedJobs(s)| == |s|
    ensures forall j :: j in LiveJobs(s) <==> j in s && j.Live()
    ensures forall j :: j in EndedJobs(s) <==> j in s && !j.Live()
  {
    if s != [] {
      Partition(s[..|s| - 1]);
      assert s == s[..|s| - 1] + [s[|s| - 1]];
    }
  }

  lemma {:induction false} LiveOfConcat<P>(a: seq<Job<P>>, b: seq<Job<P>>)
    ensures LiveJobs(a + b) == LiveJobs(a) + LiveJobs(b)
    ensures EndedJobs(a + b) == EndedJobs(a) + EndedJobs(b)
  {
    if b == [] {
      assert a + b == a;
    } else {
      LiveOfConcat(a, b[..|b| - 1]);
      assert (a + b)[..|a + b| - 1] == a + b[..|b| - 1];
    }
  }

  ghost predicate OnlyLive<P>(s: seq<Job<P>>) { forall i :: 0 <= i < |s| ==> s[i].Live() }

  ghost predicate OnlyEnded<P>(s: seq<Job<P>>) { forall i :: 0 <= i < |s| ==> !s[i].Live() }

  lemma {:induction false} AllLive<P>(s: seq<Job<P>>)
    requires OnlyLive(s)
    ensures LiveJobs(s) == s && EndedJobs(s) == []
  {
    if s != [] {
      AllLive(s[..|s| - 1]);
      assert s == s[..|s| - 1] + [s[|s| - 1]];
    }
  }

  lemma {:induction false} AllEnded<P>(s: seq<Job<P>>)
    requires OnlyEnded(s)
    ensures LiveJobs(s) == [] && EndedJobs(s) == s
  {
    if s != [] {
      AllEnded(s[..|s| - 1]);
      assert s == s[..|s| - 1] + [s[|s| - 1]];
    }
  }

  /** A ledger of live jobs only is left as it is, however long. */
  lemma LiveUntrimmed<P>(s: seq<Job<P>>)
    requires OnlyLive(s)
    ensures Trim(s) == s
  {
    AllLive(s);
    assert [] + s == s;
  }

  lemma Sublists<P>(s: seq<Job<P>>)
    ensures forall i :: 0 <= i < |LiveJobs(s)| ==> LiveJobs(s)[i] in s && LiveJobs(s)[i].Live()
    ensures forall i :: 0 <= i < |EndedJobs(s)| ==> EndedJobs(s)[i] in s && !EndedJobs(s)[i].Live()
  {
  }

  function KeptEnded<P>(s: seq<Job<P>>): seq<Job<P>> {
    SliceFromEnd(EndedJobs(s), Max(0, LEDGER_LIMIT - |LiveJobs(s)|))
  }

  lemma KeptAreEnded<P>(s: seq<Job<P>>)
    ensures forall i :: 0 <= i < |KeptEnded(s)| ==> KeptEnded(s)[i] in s && !KeptEnded(s)[i].Live()
    ensures forall j :: j in KeptEnded(s) ==> j in s && !j.Live()
  {
    Sublists(s);
    var ended := KeptEnded(s);
    forall i | 0 <= i < |ended| ensures ended[i] in s && !ended[i].Live() {
      assert ended[i] == EndedJobs(s)[|EndedJobs(s)| - |ended| + i];
    }
  }

  lemma TrimParts<P>(s: seq<Job<P>>)
    requires |s| > LEDGER_LIMIT
    ensures LiveJobs(Trim(s)) == LiveJobs(s)
    ensures EndedJobs(Trim(s)) == KeptEnded(s)
  {
    assert OnlyEnded(KeptEnded(s)) && OnlyLive(LiveJobs(s)) by {
      KeptAreEnded(s);
      Sublists(s);
    }
    SplitAgain(KeptEnded(s), LiveJobs(s));
  }

  lemma SplitAgain<P>(ended: seq<Job<P>>, live: seq<Job<P>>)
    requires OnlyEnded(ended) && OnlyLive(live)
    ensures LiveJobs(ended + live) == live
    ensures EndedJobs(ended + live) == ended
  {
    LiveOfConcat(ended, live);
    AllEnded(ended);
    AllLive(live);
  }

  /**
    Trimming drops no live job and keeps the live jobs in order; the ended jobs
    it keeps are the latest ones. The ledger fits its limit afterwards exactly
    when it fitted before or fewer than 2,000 jobs are live: with more
    live jobs nothing at all is dropped.
   */
  lemma TrimExact<P>(s: seq<Job<P>>)
    ensures LiveJobs(Trim(s)) == LiveJobs(s)
    ensures |EndedJobs(Trim(s))| <= |EndedJobs(s)|
    ensures EndedJobs(Trim(s)) == EndedJobs(s)[|EndedJobs(s)| - |EndedJobs(Trim(s))|..]
    ensures |s| <= 2_000 ==> Trim(s) == s
    ensures |Trim(s)| <= 2_000 <==> |s| <= 2_000 || |LiveJobs(s)| < 2_000
    ensures |s| > 2_000 ==> |Trim(s)| == if |LiveJobs(s)| < 2_000 then 2_000 else |s|
  {
    Partition(s);
    if |s| > LEDGER_LIMIT {
      TrimParts(s);
    }
  }

  lemma {:induction false} UniqueSublists<P>(s: seq<Job<P>>)
    requires UniqueIds(s)
    ensures UniqueIds(LiveJobs(s)) && UniqueIds(EndedJobs(s))
  {
    if s != [] {
      var front, last := s[..|s| - 1], s[|s| - 1];
      UniqueSublists(front);
      Sublists(front);
      assert forall j :: j in front ==> j.id != last.id;
    }
  }

  lemma FindUnique<P>(s: seq<Job<P>>, k: nat)
    requires UniqueIds(s) && k < |s|
    ensures Find(s, s[k].id) == k
  {
  }

  lemma FindMember<P>(s: seq<Job<P>>, j: Job<P>)
    requires UniqueIds(s) && j in s
    ensures Present(s, j.id) && s[Find(s, j.id)] == j
  {
  }

  lemma ConcatUnique<P>(ended: seq<Job<P>>, live: seq<Job<P>>)
    requires UniqueIds(ended) && UniqueIds(live)
    requires forall i, j :: 0 <= i < |ended| && 0 <= j < |live| ==> ended[i].id != live[j].id
    ensures UniqueIds(ended + live)
  {
  }

  lemma SuffixUnique<P>(s: seq<Job<P>>, n: nat)
    requires UniqueIds(s) && n <= |s|
    ensures UniqueIds(s[n..])
  {
  }

  lemma PartsUnique<P>(s: seq<Job<P>>)
    requires UniqueIds(s) && |s| > LEDGER_LIMIT
    ensures UniqueIds(Trim(s))
  {
    UniqueSublists(s);
    Partition(s);
    Sublists(s);
    KeptAreEnded(s);
    var ended, live := KeptEnded(s), LiveJobs(s);
    SuffixUnique(EndedJobs(s), |EndedJobs(s)| - |ended|);
    forall i, j | 0 <= i < |ended| && 0 <= j < |live|
      ensures ended[i].id != live[j].id
    {
      assert live[j] in live;
      FindMember(s, ended[i]);
      FindMember(s, live[j]);
    }
    ConcatUnique(ended, live);
  }

  lemma TrimUnique<P>(s: seq<Job<P>>)
    requires UniqueIds(s)
    ensures UniqueIds(Trim(s))
    ensures forall j :: j in Trim(s) ==> j in s
    ensures forall j :: j in s && j.Live() ==> j in Trim(s)
  {
    if |s| > LEDGER_LIMIT {
      PartsUnique(s);
      TrimMembers(s);
    }
  }

  lemma TrimMembers<P>(s: seq<Job<P>>)
    requires |s| > LEDGER_LIMIT
    ensures forall j :: j in Trim(s) ==> j in s
    ensures forall j :: j in s && j.Live() ==> j in Trim(s)
  {
    Partition(s);
    KeptAreEnded(s);
    ConcatMembers(s, KeptEnded(s), LiveJobs(s));
  }

  lemma ConcatMembers<P>(s: seq<Job<P>>, ended: seq<Job<P>>, live: seq<Job<P>>)
    requires forall j :: j in live <==> j in s && j.Live()
    requires forall j :: j in ended ==> j in s && !j.Live()
    ensures forall j :: j in ended + live ==> j in s
    ensures forall j :: j in s && j.Live() ==> j in ended + live
  {
  }

  /** A job looked up after trimming is the job looked up before; a live one is still there. */
  lemma TrimFind<P>(s: seq<Job<P>>, id: int)
    requires UniqueIds(s)
    ensures Present(Trim(s), id) ==> Present(s, id) && Trim(s)[Find(Trim(s), id)] == s[Find(s, id)]
    ensures Present(s, id) && s[Find(s, id)].Live() ==> Present(Trim(s), id)
  {
    TrimUnique(s);
    if Present(Trim(s), id) {
      FindMember(s, Trim(s)[Find(Trim(s), id)]);
    }
    if Present(s, id) && s[Find(s, id)].Live() {
      FindMember(Trim(s), s[Find(s, id)]);
    }
  }
}
