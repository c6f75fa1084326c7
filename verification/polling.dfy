/** A run of polls against one long-lived altitude side-table. Each poll may
    carry its own aircraft list, reference tables (which load while polls are
    already running) and threshold (each request sends its configuration). */
module Polling {
  import opened Wrappers
  import opened ReferenceRows
  import opened Enrichment

  datatype Poll = Poll(
    aircrafts: seq<Aircraft>, airlines: seq<AirlineRow>, planes: seq<PlaneRow>, threshold: Option<real>)

  function EnrichPoll(p: Poll, tbl: AltitudeTable): (seq<Aircraft>, AltitudeTable) {
    Enrich(p.aircrafts, p.airlines, p.planes, p.threshold, tbl)
  }

  /** The outputs of successive polls and the side-table after the last one. */
  function RunPolls(polls: seq<Poll>, tbl: AltitudeTable): (r: (seq<seq<Aircraft>>, AltitudeTable))
    ensures |r.0| == |polls|
    ensures forall p :: 0 <= p < |polls| ==> |r.0[p]| == |Tracked(polls[p].aircrafts)|
  {
    if |polls| == 0 then ([], tbl)
    else
      var first := EnrichPoll(polls[0], tbl);
      var rest := RunPolls(polls[1..], first.1);
      ([first.0] + rest.0, rest.1)
  }

  /** The context state machine alone across a run of polls: the contexts
      of each poll's tracked aircraft, and the side-table after the last. */
  function ContextRun(polls: seq<Poll>, tbl: AltitudeTable): (r: (seq<seq<Option<Context>>>, AltitudeTable))
    ensures |r.0| == |polls|
  {
    if |polls| == 0 then ([], tbl)
    else
      var first := Contexts(Tracked(polls[0].aircrafts), polls[0].threshold, tbl);
      var rest := ContextRun(polls[1..], first.1);
      ([first.0] + rest.0, rest.1)
  }

  /** Poll p's state machine resolved its i-th tracked aircraft for `key`. */
  predicate ResolvesInRun(polls: seq<Poll>, ctxs: seq<seq<Option<Context>>>, key: string, p: int, i: int) {
    0 <= p < |polls| && p < |ctxs| && Resolves(Tracked(polls[p].aircrafts), ctxs[p], key, i)
  }

  lemma ContextRunUnfold(polls: seq<Poll>, tbl: AltitudeTable)
    requires |polls| > 0
    ensures var first := Contexts(Tracked(polls[0].aircrafts), polls[0].threshold, tbl);
            var rest := ContextRun(polls[1..], first.1);
            ContextRun(polls, tbl) == ([first.0] + rest.0, rest.1)
  {
  }

  /** Resolutions of a run, split into its first poll and the rest. */
  lemma ResolvesInRunShift(polls: seq<Poll>, first: seq<Option<Context>>, rest: seq<seq<Option<Context>>>, key: string)
    requires |polls| > 0
    ensures forall i :: ResolvesInRun(polls, [first] + rest, key, 0, i) <==> Resolves(Tracked(polls[0].aircrafts), first, key, i)
    ensures forall p, i :: 0 < p ==>
              (ResolvesInRun(polls, [first] + rest, key, p, i) <==> ResolvesInRun(polls[1..], rest, key, p - 1, i))
  {
    var ctxs := [first] + rest;
    forall p, i | 0 < p
      ensures ResolvesInRun(polls, ctxs, key, p, i) <==> ResolvesInRun(polls[1..], rest, key, p - 1, i)
    {
      if p < |polls| && p < |ctxs| {
        assert polls[p] == polls[1..][p - 1] && ctxs[p] == rest[p - 1];
      }
    }
  }

  /** An address whose entry has been resolved is never resolved again, in
      any later poll, and its entry stays resolved. */
  lemma {:induction false} RetiredAddressStaysSilent(polls: seq<Poll>, tbl: AltitudeTable, key: string)
    requires Retired(tbl, key)
    ensures var r := ContextRun(polls, tbl);
            Retired(r.1, key) && forall p, i :: !ResolvesInRun(polls, r.0, key, p, i)
  {
    if |polls| > 0 {
      var r := ContextRun(polls, tbl);
      ContextRunUnfold(polls, tbl);
      var first := Contexts(Tracked(polls[0].aircrafts), polls[0].threshold, tbl);
      var rest := ContextRun(polls[1..], first.1);
      ContextsRetiredStaysSilent(Tracked(polls[0].aircrafts), polls[0].threshold, tbl, key);
      RetiredAddressStaysSilent(polls[1..], first.1, key);
      ResolvesInRunShift(polls, first.0, rest.0, key);
      forall p, i
        ensures !ResolvesInRun(polls, r.0, key, p, i)
      {
        if 0 < p {
          assert !ResolvesInRun(polls[1..], rest.0, key, p - 1, i);
        }
      }
    }
  }

  /** However many polls run, the state machine resolves each address to
      LANDING or TAKING_OFF at most once: the side-table never forgets a
      resolution. */
  lemma {:induction false} AtMostOneResolution(polls: seq<Poll>, tbl: AltitudeTable, key: string)
    ensures var ctxs := ContextRun(polls, tbl).0;
            forall p, i, q, j :: ResolvesInRun(polls, ctxs, key, p, i) && ResolvesInRun(polls, ctxs, key, q, j) ==>
              p == q && i == j
  {
    if |polls| > 0 {
      var ctxs := ContextRun(polls, tbl).0;
      ContextRunUnfold(polls, tbl);
      var t := Tracked(polls[0].aircrafts);
      var first := Contexts(t, polls[0].threshold, tbl);
      var rest := ContextRun(polls[1..], first.1);
      ResolvesInRunShift(polls, first.0, rest.0, key);
      AtMostOneResolution(polls[1..], first.1, key);
      if exists i :: Resolves(t, first.0, key, i) {
        var i :| Resolves(t, first.0, key, i);
        ContextsResolutionRetires(t, polls[0].threshold, tbl, key, i);
        RetiredAddressStaysSilent(polls[1..], first.1, key);
        forall p, i'
          ensures ResolvesInRun(polls, ctxs, key, p, i') ==> p == 0 && i' == i
        {
          if 0 < p {
            assert !ResolvesInRun(polls[1..], rest.0, key, p - 1, i');
          }
        }
      } else {
        forall p, i', q, j | ResolvesInRun(polls, ctxs, key, p, i') && ResolvesInRun(polls, ctxs, key, q, j)
          ensures p == q && i' == j
        {
          assert ResolvesInRun(polls[1..], rest.0, key, p - 1, i');
          assert ResolvesInRun(polls[1..], rest.0, key, q - 1, j);
        }
      }
    }
  }

  /** Poll p reported LANDING or TAKING_OFF for `key` at its i-th entry. */
  predicate FreshInPoll(polls: seq<Poll>, outs: seq<seq<Aircraft>>, key: string, p: int, i: int) {
    0 <= p < |polls| && p < |outs| && FreshAt(polls[p].aircrafts, outs[p], key, i)
  }

  /** The polls' outputs show exactly the contexts of the state-machine run,
      and leave the same side-table. */
  lemma {:induction false} RunPollsShowsContextRun(polls: seq<Poll>, tbl: AltitudeTable, key: string)
    ensures var r := RunPolls(polls, tbl);
            var c := ContextRun(polls, tbl);
            && r.1 == c.1
            && forall p, i :: FreshInPoll(polls, r.0, key, p, i) <==> ResolvesInRun(polls, c.0, key, p, i)
  {
    if |polls| > 0 {
      var p0 := polls[0];
      var first := EnrichPoll(p0, tbl);
      var rest := RunPolls(polls[1..], first.1);
      var cfirst := Contexts(Tracked(p0.aircrafts), p0.threshold, tbl);
      var crest := ContextRun(polls[1..], cfirst.1);
      assert RunPolls(polls, tbl) == ([first.0] + rest.0, rest.1);
      ContextRunUnfold(polls, tbl);
      assert first.1 == cfirst.1;
      FreshAtResolves(p0.aircrafts, p0.airlines, p0.planes, p0.threshold, tbl, key);
      RunPollsShowsContextRun(polls[1..], first.1, key);
      FreshInPollShift(polls, first.0, rest.0, key);
      ResolvesInRunShift(polls, cfirst.0, crest.0, key);
    }
  }

  /** However many polls run, each address is reported LANDING or TAKING_OFF
      at most once. */
  lemma ReportedAtMostOnce(polls: seq<Poll>, tbl: AltitudeTable, key: string)
    ensures var outs := RunPolls(polls, tbl).0;
            forall p, i, q, j :: FreshInPoll(polls, outs, key, p, i) && FreshInPoll(polls, outs, key, q, j) ==>
              p == q && i == j
  {
    RunPollsShowsContextRun(polls, tbl, key);
    AtMostOneResolution(polls, tbl, key);
  }

  /** Fresh reports of a run, split into its first poll and the rest. */
  lemma FreshInPollShift(polls: seq<Poll>, first: seq<Aircraft>, rest: seq<seq<Aircraft>>, key: string)
    requires |polls| > 0
    ensures forall i :: FreshInPoll(polls, [first] + rest, key, 0, i) <==> FreshAt(polls[0].aircrafts, first, key, i)
    ensures forall p, i :: 0 < p ==>
              (FreshInPoll(polls, [first] + rest, key, p, i) <==> FreshInPoll(polls[1..], rest, key, p - 1, i))
  {
    var outs := [first] + rest;
    forall p, i | 0 < p
      ensures FreshInPoll(polls, outs, key, p, i) <==> FreshInPoll(polls[1..], rest, key, p - 1, i)
    {
      if p < |polls| && p < |outs| {
        assert polls[p] == polls[1..][p - 1] && outs[p] == rest[p - 1];
      }
    }
  }
}
