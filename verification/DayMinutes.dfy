/** The minutes of a day: what the validator adds up, what the composer reckons with, and when a day is
    reported as too long. */
module DayMinutes {
  import opened Util
  import opened Domain
  import opened Validate
  import opened ComposeGreedy

  /** The minutes a candidate is known to take. */
  function Stated(c: Candidate): int { if c.duration.Some? then c.duration.value else 0 }

  /** Its row does not say how long it takes, or says zero. */
  predicate Unstated(c: Candidate) { c.duration.None? || c.duration.value == 0 }

  /** The refs name places and activities, namely these. */
  ghost predicate Names(refs: seq<string>, stops: seq<Candidate>, byRef: map<string, Candidate>) {
    && |refs| == |stops|
    && forall k :: 0 <= k < |refs| ==> refs[k] in byRef && byRef[refs[k]] == stops[k] && stops[k].kind != Stay
  }

  /** One known stop more makes a day longer by the minutes it takes. */
  lemma StopAddsItsMinutes(items: seq<string>, r: string, byRef: map<string, Candidate>, m: nat)
    requires r in byRef && byRef[r].kind != Stay && byRef[r].duration == Some(m)
    ensures ActivityMinutes(items + [r], byRef) == ActivityMinutes(items, byRef) + m
  {
    assert (items + [r])[..|items|] == items;
  }

  lemma SumOfOneMore(cs: seq<Candidate>, c: Candidate, f: Candidate -> int)
    ensures SumOf(cs + [c], f) == SumOf(cs, f) + f(c)
  {
    SumOfAppend(cs, [c], f);
    assert [c][1..] == [];
  }

  /** The validator adds up what the stops are known to take. */
  lemma {:induction false} MinutesAreStated(refs: seq<string>, stops: seq<Candidate>, byRef: map<string, Candidate>)
    requires Names(refs, stops, byRef)
    ensures ActivityMinutes(refs, byRef) == SumOf(stops, Stated)
  {
    if refs != [] {
      var n := |refs| - 1;
      MinutesAreStated(refs[..n], stops[..n], byRef);
      SumOfOneMore(stops[..n], stops[n], Stated);
      assert stops == stops[..n] + [stops[n]];
    }
  }

  lemma {:induction false} NinetyForUnstated(stops: seq<Candidate>)
    ensures Spend(stops) == SumOf(stops, Stated) + 90 * |Filter(stops, Unstated)|
  {
    if stops != [] {
      var n := |stops| - 1;
      NinetyForUnstated(stops[..n]);
      SumOfOneMore(stops[..n], stops[n], Stated);
      FilterAppend(stops[..n], stops[n]);
      assert stops == stops[..n] + [stops[n]];
    }
  }

  lemma {:induction false} FilterAppend(cs: seq<Candidate>, c: Candidate)
    ensures |Filter(cs + [c], Unstated)| == |Filter(cs, Unstated)| + (if Unstated(c) then 1 else 0)
  {
    if cs == [] {
      assert [c][1..] == [] && cs + [c] == [c];
    } else {
      assert (cs + [c])[1..] == cs[1..] + [c];
      FilterAppend(cs[1..], c);
    }
  }

  /** The composer reckons with the validator's minutes and ninety for each stop whose duration is unknown or
      zero; with all durations known and positive the two agree. */
  lemma SpendIsMinutesAndNineties(refs: seq<string>, stops: seq<Candidate>, byRef: map<string, Candidate>)
    requires Names(refs, stops, byRef)
    ensures Spend(stops) == ActivityMinutes(refs, byRef) + 90 * |Filter(stops, Unstated)|
    ensures (forall c :: c in stops ==> c.duration.Some? && c.duration.value > 0) ==>
      ActivityMinutes(refs, byRef) == Spend(stops)
  {
    MinutesAreStated(refs, stops, byRef);
    NinetyForUnstated(stops);
    hide ActivityMinutes, Spend, SumOf, Names;
    if Filter(stops, Unstated) != [] {
      assert Filter(stops, Unstated)[0] in stops && Unstated(Filter(stops, Unstated)[0]);
    }
  }

  /** A day of known stops is reported as over the time budget, as an advisory naming the day, exactly when its
      stops together take longer than a day lasts. */
  lemma LongDayIsReported(draft: Draft, cs: CandidateSet, days: nat, dayMinutes: int, i: nat, stops: seq<Candidate>)
    requires i < |draft.days| && Names(draft.days[i].items, stops, cs.ByRef())
    ensures var v := Violation(OverTimeBudget, Advisory, None, Some(draft.days[i].number));
      && (SumOf(stops, Stated) > dayMinutes ==> Reported(v, draft, cs, days, dayMinutes))
      && (DraftValid(draft, cs, days) && Reported(v, draft, cs, days, dayMinutes) ==> SumOf(stops, Stated) > dayMinutes)
  {
    MinutesAreStated(draft.days[i].items, stops, cs.ByRef());
    var v := Violation(OverTimeBudget, Advisory, None, Some(draft.days[i].number));
    hide CandidateSet.ByRef, Names, SumOf, ActivityMinutes, DraftValid;
    if SumOf(stops, Stated) > dayMinutes {
      assert DayReported(v, draft, cs.ByRef(), dayMinutes, i);
    }
    if DraftValid(draft, cs, days) && Reported(v, draft, cs, days, dayMinutes) {
      DraftNumbersDiffer(draft, cs, days);
      ReportedForTheDay(draft, cs, days, dayMinutes, i);
    }
  }

  lemma ReportedForTheDay(draft: Draft, cs: CandidateSet, days: nat, dayMinutes: int, i: nat)
    requires i < |draft.days|
    requires forall a, b :: a in draft.days && b in draft.days && a.number == b.number ==> a == b
    requires var v := Violation(OverTimeBudget, Advisory, None, Some(draft.days[i].number));
      Reported(v, draft, cs, days, dayMinutes)
    ensures ActivityMinutes(draft.days[i].items, cs.ByRef()) > dayMinutes
  {
    hide CandidateSet.ByRef, ActivityMinutes;
    var v := Violation(OverTimeBudget, Advisory, None, Some(draft.days[i].number));
    var j :| 0 <= j < |draft.days| && DayReported(v, draft, cs.ByRef(), dayMinutes, j);
    assert draft.days[i] in draft.days && draft.days[j] in draft.days;
    hide OccursBefore;
  }
}
