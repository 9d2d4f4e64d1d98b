/**
 * Properties of the present-or-validate fast path: the outcome written (at
 * most one, last, for the right display), when presentation is skipped, and
 * the order in which the device is asked (query after a clean validate,
 * accept and a second present only without client composition).
 */
module PresentOrValidateProperties {
  import opened ComposerTypes
  import opened EngineSpec
  import EngineProperties

  /** No present-or-validate outcome was written between `s` and `r`. */
  ghost predicate NoOutcome(s: EngineState, r: EngineState)
  {
    forall i :: |s.results| <= i < |r.results| ==> !r.results[i].PresentOrValidateResult?
  }

  /** Of the payloads written between `s` and `r`, only the last may be an
      outcome, and an outcome there is for `display`. */
  ghost predicate OutcomeOnlyLast(s: EngineState, r: EngineState, display: Display)
  {
    && (forall i :: |s.results| <= i < |r.results| - 1 ==> !r.results[i].PresentOrValidateResult?)
    && (|s.results| < |r.results| && r.results[|r.results| - 1].PresentOrValidateResult? ==>
          r.results[|r.results| - 1].display == display)
  }

  /** The last payload written between `s` and `r` is outcome `o` for `display`. */
  ghost predicate EndsWithOutcome(s: EngineState, r: EngineState, display: Display, o: Outcome)
  {
    |s.results| < |r.results| && r.results[|r.results| - 1] == PresentOrValidateResult(display, o)
  }

  /** A present of `display` was made between `s` and `r` and the device
      accepted it. */
  ghost predicate PresentAccepted(env: Env, s: EngineState, r: EngineState, display: Display)
  {
    exists j :: |s.halCalls| <= j < |r.halCalls| && r.halCalls[j] == PresentDisplay(display) &&
      env.hal(r.halCalls[..j], PresentDisplay(display)).status == StatusNone
  }

  /** In `calls` from position `lo` on, every client-composition query of
      `display` directly follows a validation of it that returned NONE. */
  ghost predicate QueryAfterCleanValidate(env: Env, lo: nat, calls: seq<HalCall>, display: Display)
  {
    forall j :: lo <= j < |calls| && calls[j] == GetHasClientComposition(display) ==>
      && lo < j
      && calls[j - 1] == ValidateDisplay(display)
      && env.hal(calls[..j - 1], ValidateDisplay(display)).status == StatusNone
  }

  /** In `calls` from position `lo` on, every accept of `display` directly
      follows a query that found no client composition, and is directly
      followed by a present. */
  ghost predicate AcceptWithoutClientComposition(env: Env, lo: nat, calls: seq<HalCall>, display: Display)
  {
    forall j :: lo <= j < |calls| && calls[j] == AcceptDisplayChanges(display) ==>
      && lo < j < |calls| - 1
      && calls[j - 1] == GetHasClientComposition(display)
      && calls[j + 1] == PresentDisplay(display)
      && var q := env.hal(calls[..j - 1], GetHasClientComposition(display));
         !(q.status == StatusNone && q.hasClientComposition)
  }

  lemma SetterWritesNoOutcome(env: Env, s: EngineState, k: int, c: HalCall)
    ensures NoOutcome(s, SimpleSet(env, s, k, c))
  {
  }

  lemma ValidateWritesNoOutcome(env: Env, s: EngineState, k: int, display: Display)
    ensures NoOutcome(s, ValidateInternal(env, s, k, display).0)
  {
  }

  lemma PresentWritesNoOutcome(env: Env, s: EngineState, display: Display)
    ensures NoOutcome(s, Present(env, s, display).0)
  {
  }

  /** The two branches of the stage after a clean validation. With client
      composition the query is followed by `Validated`. Otherwise the changes
      are accepted (an error if that fails) and presentation is retried:
      `Presented` after the present's payloads when it succeeds, and no
      outcome at all when it fails. */
  lemma AfterCleanValidateCalls(env: Env, s: EngineState, k: int, display: Display)
    ensures var r := AfterCleanValidate(env, s, k, display);
      var q := Reply(env, s, GetHasClientComposition(display));
      var a := env.hal(s.halCalls + [GetHasClientComposition(display)], AcceptDisplayChanges(display));
      var p := env.hal(s.halCalls + [GetHasClientComposition(display), AcceptDisplayChanges(display)], PresentDisplay(display));
      var accepted := s.results + (if a.status != StatusNone then [Error(k, a.status)] else []);
      && r.mustValidate == s.mustValidate
      && (q.status == StatusNone && q.hasClientComposition ==>
            && r.halCalls == s.halCalls + [GetHasClientComposition(display)]
            && r.results == s.results + [PresentOrValidateResult(display, Validated)])
      && (!(q.status == StatusNone && q.hasClientComposition) ==>
            && r.halCalls == s.halCalls + [GetHasClientComposition(display), AcceptDisplayChanges(display), PresentDisplay(display)]
            && (p.status == StatusNone ==>
                  r.results == accepted + PresentPayloads(display, p) + [PresentOrValidateResult(display, Presented)])
            && (p.status != StatusNone ==> r.results == accepted))
  {
    var (s4, cannotPresentDirectly) := ClientComposition(env, s, display);
    if !cannotPresentDirectly {
      var s5 := SimpleSet(env, s4, k, AcceptDisplayChanges(display));
      EngineProperties.SetterReportsOnlyFailure(env, s4, k, AcceptDisplayChanges(display));
      assert s5.halCalls == s.halCalls + [GetHasClientComposition(display), AcceptDisplayChanges(display)];
    }
  }

  /** Without client composition, the retried present decides the outcome:
      `Presented` exactly when it succeeds, and none when it fails. */
  lemma RetryDecidesOutcome(env: Env, s: EngineState, k: int, display: Display)
    ensures var r := AfterCleanValidate(env, s, k, display);
      var q := Reply(env, s, GetHasClientComposition(display));
      var p := env.hal(s.halCalls + [GetHasClientComposition(display), AcceptDisplayChanges(display)], PresentDisplay(display));
      !(q.status == StatusNone && q.hasClientComposition) ==>
        && (p.status == StatusNone <==> EndsWithOutcome(s, r, display, Presented))
        && (p.status != StatusNone ==> NoOutcome(s, r))
  {
    AfterCleanValidateCalls(env, s, k, display);
  }

  lemma NoOutcomeThenOnlyLast(s: EngineState, m: EngineState, r: EngineState, display: Display)
    requires s.results <= m.results <= r.results
    requires NoOutcome(s, m) && OutcomeOnlyLast(m, r, display)
    ensures OutcomeOnlyLast(s, r, display)
  {
    forall i | |s.results| <= i < |m.results|
      ensures r.results[i] == m.results[i]
    {
    }
  }

  lemma AfterCleanValidateSingleOutcome(env: Env, s: EngineState, k: int, display: Display)
    ensures OutcomeOnlyLast(s, AfterCleanValidate(env, s, k, display), display)
  {
    var (s4, cannotPresentDirectly) := ClientComposition(env, s, display);
    if !cannotPresentDirectly {
      var s5 := SimpleSet(env, s4, k, AcceptDisplayChanges(display));
      SetterWritesNoOutcome(env, s4, k, AcceptDisplayChanges(display));
      PresentWritesNoOutcome(env, s5, display);
      var (s6, retryErr) := Present(env, s5, display);
      assert NoOutcome(s, s6) by {
        forall i | |s.results| <= i < |s6.results| ensures !s6.results[i].PresentOrValidateResult? {
          if i < |s5.results| {
            assert s6.results[i] == s5.results[i];
          }
        }
      }
    }
  }

  lemma FallbackSingleOutcome(env: Env, s: EngineState, k: int, display: Display)
    ensures OutcomeOnlyLast(s, Fallback(env, s, k, display), display)
  {
    var (s3, validateErr) := ValidateInternal(env, s, k, display);
    ValidateWritesNoOutcome(env, s, k, display);
    if validateErr == StatusNone {
      AfterCleanValidateSingleOutcome(env, s3, k, display);
      NoOutcomeThenOnlyLast(s, s3, Fallback(env, s, k, display), display);
    }
  }

  /** At most one outcome is written, it is the last payload, and it is for
      the display the command names. */
  lemma PresentOrValidateSingleOutcome(env: Env, s: EngineState, k: int, display: Display, time: Option<Timestamp>)
    ensures OutcomeOnlyLast(s, PresentOrValidate(env, s, k, display, time), display)
  {
    var r := PresentOrValidate(env, s, k, display, time);
    var s1 := SetPresentTime(s, display, time);
    var (s2, presentErr) := Present(env, s1, display);
    var t := if MustValidate(s1, display) then s1 else s2;
    if MustValidate(s1, display) || presentErr != StatusNone {
      assert r == Fallback(env, t, k, display);
      FallbackSingleOutcome(env, t, k, display);
      assert t.results == s.results;
    } else {
      PresentWritesNoOutcome(env, s1, display);
      NoOutcomeThenOnlyLast(s1, s2, r, display);
    }
  }

  /** Validation after a refused present clears the display's must-validate
      flag, and is the first thing the fallback asks of the device. */
  lemma FallbackValidatesFirst(env: Env, s: EngineState, k: int, display: Display)
    ensures var r := Fallback(env, s, k, display);
      && |s.halCalls| < |r.halCalls|
      && r.halCalls[|s.halCalls|] == ValidateDisplay(display)
      && |s.results| < |r.results|
      && !MustValidate(r, display)
  {
    var (s3, validateErr) := ValidateInternal(env, s, k, display);
    if validateErr == StatusNone {
      AfterCleanValidateCalls(env, s3, k, display);
    }
  }

  /** The fallback by validation status: a failed validation ends the
      command with its error and no outcome; HAS_CHANGES ends it with the
      validation lists and Validated, without asking about client
      composition. */
  lemma FallbackOnValidateStatus(env: Env, s: EngineState, k: int, display: Display)
    ensures var v := Reply(env, s, ValidateDisplay(display));
      var r := Fallback(env, s, k, display);
      && (v.status != StatusNone && v.status != StatusHasChanges ==>
            && r.halCalls == s.halCalls + [ValidateDisplay(display)]
            && r.results == s.results + [Error(k, v.status)])
      && (v.status == StatusHasChanges ==>
            && r.halCalls == s.halCalls + [ValidateDisplay(display)]
            && r.results == s.results + [ChangedCompositionTypes(display, v.changedLayers, v.compositionTypes),
                                         DisplayRequests(display, v.displayRequestMask, v.requestedLayers, v.requestMasks),
                                         PresentOrValidateResult(display, Validated)])
  {
    var v := Reply(env, s, ValidateDisplay(display));
    if v.status == StatusHasChanges {
      var s3 := ValidateInternal(env, s, k, display).0;
      assert s3.results == s.results + [ChangedCompositionTypes(display, v.changedLayers, v.compositionTypes),
                                        DisplayRequests(display, v.displayRequestMask, v.requestedLayers, v.requestMasks)];
    }
  }

  /** Unless the first present succeeds, the command falls back to
      validation once the hint (and the refused present, when one was made)
      has been sent, with nothing written yet. */
  lemma RefusedPresentFallsBack(env: Env, s: EngineState, k: int, display: Display, time: Option<Timestamp>)
    ensures var s1 := SetPresentTime(s, display, time);
      var r := PresentOrValidate(env, s, k, display, time);
      && (MustValidate(s, display) ==> r == Fallback(env, s1, k, display))
      && (!MustValidate(s, display) && Reply(env, s1, PresentDisplay(display)).status != StatusNone ==>
            var t := Present(env, s1, display).0;
            && r == Fallback(env, t, k, display)
            && t.results == s.results
            && t.halCalls == s.halCalls + [SetExpectedPresentTime(display, time), PresentDisplay(display)])
  {
  }

  /** When Resources says the display must be validated, presentation is not
      attempted: validation directly follows the hint, and afterwards the
      display no longer needs validating. */
  lemma MustValidateSkipsPresent(env: Env, s: EngineState, k: int, display: Display, time: Option<Timestamp>)
    requires MustValidate(s, display)
    ensures var r := PresentOrValidate(env, s, k, display, time);
      && |s.halCalls| + 2 <= |r.halCalls|
      && r.halCalls[|s.halCalls|] == SetExpectedPresentTime(display, time)
      && r.halCalls[|s.halCalls| + 1] == ValidateDisplay(display)
      && !MustValidate(r, display)
  {
    var s1 := SetPresentTime(s, display, time);
    FallbackValidatesFirst(env, s1, k, display);
  }

  /** Whatever happens, a display that started out needing validation does
      not need it afterwards. */
  lemma PresentOrValidateLeavesDisplayValidated(env: Env, s: EngineState, k: int, display: Display, time: Option<Timestamp>)
    ensures MustValidate(s, display) ==> !MustValidate(PresentOrValidate(env, s, k, display, time), display)
  {
    FallbackValidatesFirst(env, SetPresentTime(s, display, time), k, display);
  }

  /** A display that needs no validation and presents on the first try is
      not validated: hint, present, the present's fences, then Presented. */
  lemma PresentedOnFirstTry(env: Env, s: EngineState, k: int, display: Display, time: Option<Timestamp>)
    requires !MustValidate(s, display)
    requires Reply(env, SetPresentTime(s, display, time), PresentDisplay(display)).status == StatusNone
    ensures var r := PresentOrValidate(env, s, k, display, time);
      var p := Reply(env, SetPresentTime(s, display, time), PresentDisplay(display));
      && r.halCalls == s.halCalls + [SetExpectedPresentTime(display, time), PresentDisplay(display)]
      && r.mustValidate == s.mustValidate
      && r.results == s.results + PresentPayloads(display, p) + [PresentOrValidateResult(display, Presented)]
      && Silent(s, r)
      && EndsWithOutcome(s, r, display, Presented)
  {
  }

  lemma AfterCleanValidatePresented(env: Env, s: EngineState, k: int, display: Display)
    ensures var r := AfterCleanValidate(env, s, k, display);
      EndsWithOutcome(s, r, display, Presented) ==> PresentAccepted(env, s, r, display)
  {
    var r := AfterCleanValidate(env, s, k, display);
    var (s4, cannotPresentDirectly) := ClientComposition(env, s, display);
    if !cannotPresentDirectly {
      var s5 := SimpleSet(env, s4, k, AcceptDisplayChanges(display));
      var j := |s5.halCalls|;
      assert r.halCalls[..j] == s5.halCalls;
    }
  }

  lemma FallbackPresented(env: Env, s: EngineState, k: int, display: Display)
    ensures var r := Fallback(env, s, k, display);
      EndsWithOutcome(s, r, display, Presented) ==> PresentAccepted(env, s, r, display)
  {
    var r := Fallback(env, s, k, display);
    var (s3, validateErr) := ValidateInternal(env, s, k, display);
    if validateErr == StatusNone {
      assert r == AfterCleanValidate(env, s3, k, display);
      AfterCleanValidatePresented(env, s3, k, display);
      if |s3.results| < |r.results| {
        PresentedLater(env, s, s3, r, display);
      } else {
        assert r.results == s3.results;
      }
    }
  }

  /** An accepted present found after `t` was also made after `s`, when `t`
      comes after `s` and the outcome was written after `t`. */
  lemma PresentedLater(env: Env, s: EngineState, t: EngineState, r: EngineState, display: Display)
    requires |s.halCalls| <= |t.halCalls|
    requires EndsWithOutcome(s, r, display, Presented) ==> |t.results| < |r.results|
    requires EndsWithOutcome(t, r, display, Presented) ==> PresentAccepted(env, t, r, display)
    ensures EndsWithOutcome(s, r, display, Presented) ==> PresentAccepted(env, s, r, display)
  {
    if EndsWithOutcome(s, r, display, Presented) {
      var j :| |t.halCalls| <= j < |r.halCalls| && r.halCalls[j] == PresentDisplay(display) &&
        env.hal(r.halCalls[..j], PresentDisplay(display)).status == StatusNone;
    }
  }

  /** A Presented outcome is written only after a present the device
      accepted. */
  lemma PresentedOnlyAfterAcceptedPresent(env: Env, s: EngineState, k: int, display: Display, time: Option<Timestamp>)
    ensures var r := PresentOrValidate(env, s, k, display, time);
      EndsWithOutcome(s, r, display, Presented) ==> PresentAccepted(env, s, r, display)
  {
    var r := PresentOrValidate(env, s, k, display, time);
    var s1 := SetPresentTime(s, display, time);
    var (s2, presentErr) := Present(env, s1, display);
    var t := if MustValidate(s1, display) then s1 else s2;
    if MustValidate(s1, display) || presentErr != StatusNone {
      assert r == Fallback(env, t, k, display);
      FallbackPresented(env, t, k, display);
      PresentedLater(env, s, t, r, display);
    } else {
      assert r.halCalls[..|s1.halCalls|] == s1.halCalls;
    }
  }

  /** The composition changes and the display requests of `display` are
      the two payloads before the last one written between `s` and `r`. */
  ghost predicate ValidationBeforeLast(s: EngineState, r: EngineState, display: Display)
  {
    && |s.results| + 3 <= |r.results|
    && r.results[|r.results| - 3].ChangedCompositionTypes? && r.results[|r.results| - 3].display == display
    && r.results[|r.results| - 2].DisplayRequests? && r.results[|r.results| - 2].display == display
  }

  /** From position `lo` on, `calls` holds no accept of `display`, and a
      present of it only at position lo + 1. */
  ghost predicate NoRetry(lo: nat, calls: seq<HalCall>, display: Display)
  {
    forall j :: lo <= j < |calls| ==>
      && calls[j] != AcceptDisplayChanges(display)
      && (calls[j] == PresentDisplay(display) ==> j == lo + 1)
  }

  lemma FallbackValidated(env: Env, s: EngineState, k: int, display: Display)
    ensures var r := Fallback(env, s, k, display);
      EndsWithOutcome(s, r, display, Validated) ==>
        && ValidationBeforeLast(s, r, display)
        && forall j :: |s.halCalls| <= j < |r.halCalls| ==>
             r.halCalls[j] != AcceptDisplayChanges(display) && r.halCalls[j] != PresentDisplay(display)
  {
    var r := Fallback(env, s, k, display);
    var (s3, validateErr) := ValidateInternal(env, s, k, display);
    if validateErr == StatusNone {
      assert r == AfterCleanValidate(env, s3, k, display);
      AfterCleanValidateCalls(env, s3, k, display);
      RetryNeverValidated(env, s3, k, display);
    } else if validateErr == StatusHasChanges {
      assert r == Recorded(s3, [PresentOrValidateResult(display, Validated)]);
    } else {
      assert r == s3;
    }
  }

  /** When the changes are accepted and presentation retried, the stage does
      not end with a Validated outcome, provided the state it starts from
      does not end with an outcome. */
  lemma RetryNeverValidated(env: Env, s: EngineState, k: int, display: Display)
    requires |s.results| > 0 && !s.results[|s.results| - 1].PresentOrValidateResult?
    ensures var r := AfterCleanValidate(env, s, k, display);
      var q := Reply(env, s, GetHasClientComposition(display));
      !(q.status == StatusNone && q.hasClientComposition) ==>
        r.results[|r.results| - 1] != PresentOrValidateResult(display, Validated)
  {
  }

  /** What the fallback promises about a Validated outcome carries over to
      the whole command when only the hint and a refused present precede
      it. */
  lemma ValidatedAfterRefusal(s: EngineState, t: EngineState, r: EngineState, display: Display, time: Option<Timestamp>)
    requires t.results == s.results
    requires t.halCalls == s.halCalls + [SetExpectedPresentTime(display, time)] ||
             t.halCalls == s.halCalls + [SetExpectedPresentTime(display, time), PresentDisplay(display)]
    requires |t.halCalls| <= |r.halCalls| && r.halCalls[..|t.halCalls|] == t.halCalls
    requires EndsWithOutcome(t, r, display, Validated) ==>
        && ValidationBeforeLast(t, r, display)
        && forall j :: |t.halCalls| <= j < |r.halCalls| ==>
             r.halCalls[j] != AcceptDisplayChanges(display) && r.halCalls[j] != PresentDisplay(display)
    ensures EndsWithOutcome(s, r, display, Validated) ==>
        ValidationBeforeLast(s, r, display) && NoRetry(|s.halCalls|, r.halCalls, display)
  {
    if EndsWithOutcome(s, r, display, Validated) {
      forall j | |s.halCalls| <= j < |t.halCalls| ensures r.halCalls[j] == t.halCalls[j] {
      }
    }
  }

  /** A Validated outcome directly follows the composition changes and the
      display requests of a validation of the same display, and neither an
      accept nor a second present was attempted. */
  lemma PresentOrValidateValidated(env: Env, s: EngineState, k: int, display: Display, time: Option<Timestamp>)
    ensures var r := PresentOrValidate(env, s, k, display, time);
      EndsWithOutcome(s, r, display, Validated) ==>
        && ValidationBeforeLast(s, r, display)
        && !MustValidate(r, display)
        && NoRetry(|s.halCalls|, r.halCalls, display)
  {
    var r := PresentOrValidate(env, s, k, display, time);
    var s1 := SetPresentTime(s, display, time);
    var (s2, presentErr) := Present(env, s1, display);
    var t := if MustValidate(s1, display) then s1 else s2;
    if MustValidate(s1, display) || presentErr != StatusNone {
      assert r == Fallback(env, t, k, display);
      FallbackValidated(env, t, k, display);
      FallbackValidatesFirst(env, t, k, display);
      assert r.halCalls[..|t.halCalls|] == t.halCalls;
      ValidatedAfterRefusal(s, t, r, display, time);
    }
  }

  /** When no outcome is written the command failed: an error was written
      (validation failed) or the retried present was refused. */
  lemma NoOutcomeMeansFailure(env: Env, s: EngineState, k: int, display: Display, time: Option<Timestamp>)
    ensures var r := PresentOrValidate(env, s, k, display, time);
      NoOutcome(s, r) ==>
        || (exists i :: |s.results| <= i < |r.results| && r.results[i].Error?)
        || (&& 0 < |r.halCalls|
            && r.halCalls[|r.halCalls| - 1] == PresentDisplay(display)
            && env.hal(r.halCalls[..|r.halCalls| - 1], PresentDisplay(display)).status != StatusNone)
  {
    var r := PresentOrValidate(env, s, k, display, time);
    var s1 := SetPresentTime(s, display, time);
    var (s2, presentErr) := Present(env, s1, display);
    var t := if MustValidate(s1, display) then s1 else s2;
    if MustValidate(s1, display) || presentErr != StatusNone {
      assert r == Fallback(env, t, k, display);
      var (s3, validateErr) := ValidateInternal(env, t, k, display);
      if validateErr != StatusNone && validateErr != StatusHasChanges {
        assert r.results[|s3.results| - 1].Error?;
      } else if validateErr == StatusHasChanges {
        assert r.results[|s3.results|].PresentOrValidateResult?;
      } else {
        var (s4, cannotPresentDirectly) := ClientComposition(env, s3, display);
        if cannotPresentDirectly {
          assert r.results[|s4.results|].PresentOrValidateResult?;
        } else {
          var s5 := SimpleSet(env, s4, k, AcceptDisplayChanges(display));
          var (s6, retryErr) := Present(env, s5, display);
          if retryErr != StatusNone {
            assert r.halCalls[..|r.halCalls| - 1] == s5.halCalls;
          } else {
            assert r.results[|s6.results|].PresentOrValidateResult?;
          }
        }
      }
    } else {
      assert r.results[|s2.results|].PresentOrValidateResult?;
    }
  }

  lemma QueryExtend(env: Env, lo: nat, lo': nat, calls: seq<HalCall>, display: Display)
    requires lo <= lo' <= |calls|
    requires forall j :: lo <= j < lo' ==> calls[j] != GetHasClientComposition(display)
    requires QueryAfterCleanValidate(env, lo', calls, display)
    ensures QueryAfterCleanValidate(env, lo, calls, display)
  {
  }

  lemma AcceptExtend(env: Env, lo: nat, lo': nat, calls: seq<HalCall>, display: Display)
    requires lo <= lo' <= |calls|
    requires forall j :: lo <= j < lo' ==> calls[j] != AcceptDisplayChanges(display)
    requires AcceptWithoutClientComposition(env, lo', calls, display)
    ensures AcceptWithoutClientComposition(env, lo, calls, display)
  {
  }

  /** The calls after a clean validation: one query, then, when it found no
      client composition, an accept and a present. */
  ghost predicate QueryThenRetry(env: Env, calls: seq<HalCall>, r: seq<HalCall>, display: Display)
  {
    && |calls| < |r|
    && r[|calls|] == GetHasClientComposition(display)
    && (forall j :: |calls| < j < |r| ==> r[j] != GetHasClientComposition(display))
    && AcceptWithoutClientComposition(env, |calls|, r, display)
  }

  lemma QueryAlone(env: Env, calls: seq<HalCall>, display: Display)
    ensures QueryThenRetry(env, calls, calls + [GetHasClientComposition(display)], display)
  {
  }

  lemma QueryAcceptPresent(env: Env, calls: seq<HalCall>, display: Display)
    requires !(env.hal(calls, GetHasClientComposition(display)).status == StatusNone &&
               env.hal(calls, GetHasClientComposition(display)).hasClientComposition)
    ensures QueryThenRetry(env, calls, calls + [GetHasClientComposition(display), AcceptDisplayChanges(display), PresentDisplay(display)], display)
  {
    var r := calls + [GetHasClientComposition(display), AcceptDisplayChanges(display), PresentDisplay(display)];
    assert r[..|calls|] == calls;
  }

  lemma AfterCleanValidateOrder(env: Env, s: EngineState, k: int, display: Display)
    ensures QueryThenRetry(env, s.halCalls, AfterCleanValidate(env, s, k, display).halCalls, display)
  {
    var q := Reply(env, s, GetHasClientComposition(display));
    AfterCleanValidateCalls(env, s, k, display);
    if q.status == StatusNone && q.hasClientComposition {
      QueryAlone(env, s.halCalls, display);
    } else {
      QueryAcceptPresent(env, s.halCalls, display);
    }
  }

  /** A clean validation followed by the query stage gives the fallback's
      call order. */
  lemma QueryAfterValidate(env: Env, calls: seq<HalCall>, r: seq<HalCall>, display: Display)
    requires env.hal(calls, ValidateDisplay(display)).status == StatusNone
    requires |calls| < |r| && r[..|calls| + 1] == calls + [ValidateDisplay(display)]
    requires QueryThenRetry(env, calls + [ValidateDisplay(display)], r, display)
    ensures QueryAfterCleanValidate(env, |calls|, r, display)
    ensures AcceptWithoutClientComposition(env, |calls|, r, display)
  {
    assert r[..|calls|] == calls by {
      assert r[..|calls|] == r[..|calls| + 1][..|calls|];
    }
    assert r[|calls|] == ValidateDisplay(display) by {
      assert r[|calls|] == r[..|calls| + 1][|calls|];
    }
    AcceptExtend(env, |calls|, |calls| + 1, r, display);
  }

  lemma FallbackOrder(env: Env, s: EngineState, k: int, display: Display)
    ensures var r := Fallback(env, s, k, display);
      && QueryAfterCleanValidate(env, |s.halCalls|, r.halCalls, display)
      && AcceptWithoutClientComposition(env, |s.halCalls|, r.halCalls, display)
  {
    var r := Fallback(env, s, k, display);
    var (s3, validateErr) := ValidateInternal(env, s, k, display);
    if validateErr == StatusNone {
      AfterCleanValidateOrder(env, s3, k, display);
      assert r.halCalls[..|s3.halCalls|] == s3.halCalls;
      QueryAfterValidate(env, s.halCalls, r.halCalls, display);
    }
  }

  /** The fallback's call order carries over to the whole command when only
      the hint and a refused present precede it. */
  lemma OrderAfterRefusal(env: Env, s: EngineState, t: EngineState, r: EngineState, display: Display, time: Option<Timestamp>)
    requires t.halCalls == s.halCalls + [SetExpectedPresentTime(display, time)] ||
             t.halCalls == s.halCalls + [SetExpectedPresentTime(display, time), PresentDisplay(display)]
    requires |t.halCalls| <= |r.halCalls| && r.halCalls[..|t.halCalls|] == t.halCalls
    requires QueryAfterCleanValidate(env, |t.halCalls|, r.halCalls, display)
    requires AcceptWithoutClientComposition(env, |t.halCalls|, r.halCalls, display)
    ensures QueryAfterCleanValidate(env, |s.halCalls|, r.halCalls, display)
    ensures AcceptWithoutClientComposition(env, |s.halCalls|, r.halCalls, display)
  {
    forall j | |s.halCalls| <= j < |t.halCalls| ensures r.halCalls[j] == t.halCalls[j] {
    }
    QueryExtend(env, |s.halCalls|, |t.halCalls|, r.halCalls, display);
    AcceptExtend(env, |s.halCalls|, |t.halCalls|, r.halCalls, display);
  }

  /** The order in which present-or-validate asks the device: the
      client-composition query only right after a validation that returned
      NONE, and an accept only after a query that found no client
      composition, directly followed by the second present. */
  lemma PresentOrValidateOrder(env: Env, s: EngineState, k: int, display: Display, time: Option<Timestamp>)
    ensures var r := PresentOrValidate(env, s, k, display, time);
      && QueryAfterCleanValidate(env, |s.halCalls|, r.halCalls, display)
      && AcceptWithoutClientComposition(env, |s.halCalls|, r.halCalls, display)
  {
    var r := PresentOrValidate(env, s, k, display, time);
    var s1 := SetPresentTime(s, display, time);
    var (s2, presentErr) := Present(env, s1, display);
    var t := if MustValidate(s1, display) then s1 else s2;
    if MustValidate(s1, display) || presentErr != StatusNone {
      assert r == Fallback(env, t, k, display);
      FallbackOrder(env, t, k, display);
      FallbackValidatesFirst(env, t, k, display);
      assert r.halCalls[..|t.halCalls|] == t.halCalls;
      OrderAfterRefusal(env, s, t, r, display, time);
    }
  }
}
