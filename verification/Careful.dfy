/** A rule a caller can follow: a run in which an append has failed makes no other. Then there is no mishap. */
module Careful {
  import opened Common
  import opened Text
  import opened ControlFile
  import opened Engine
  import opened EngineLaws
  import opened ScatterSafety

  ghost predicate StepAt(ws: seq<World>, k: nat, step: Step)
    requires k + 1 < |ws|
  {
    ws[k].Scattering? && Enabled(ws[k].run, step) && ws[k + 1] == Scattering(Apply(ws[k].run, step))
  }

  ghost predicate FailsAt(ws: seq<World>, k: nat)
  {
    k + 1 < |ws| && exists moves :: StepAt(ws, k, FailControl(moves))
  }

  ghost predicate LocksAt(ws: seq<World>, k: nat)
  {
    k + 1 < |ws| && exists i :: StepAt(ws, k, Lock(i))
  }

  /** One run goes on from `k` to `i`. */
  ghost predicate IsOneRun(ws: seq<World>, k: nat, i: nat)
    requires i < |ws|
  {
    forall m :: k <= m <= i ==> ws[m].Scattering?
  }

  /** No run appends again once an append of its own has failed. */
  ghost predicate IsCareful(ws: seq<World>)
  {
    forall k, j :: 0 <= k < j < |ws| && FailsAt(ws, k) && LocksAt(ws, j) ==> !IsOneRun(ws, k, j)
  }

  /** The footing is intact, or an append of this run has failed and the lock is free. */
  ghost predicate IsCalm(ws: seq<World>, i: nat)
    requires i < |ws|
  {
    ws[i].Scattering? && ws[i].run.footing != Intact ==>
      && ws[i].run.append == Unlocked && ws[i].run.footing in {Torn, Gapped}
      && exists k :: 0 <= k < i && FailsAt(ws, k) && IsOneRun(ws, k, i)
  }

  /** An append over an intact footer leaves one, unless it fails. */
  lemma OverIntact(s: Run, step: Step)
    requires FlowInv(s) && Enabled(s, step) && s.footing == Intact
    ensures var t := Apply(s, step);
            t.footing == Intact || (step.FailControl? && t.append == Unlocked && t.footing in {Torn, Gapped})
  {
    hide Enabled, Apply, FlowInv;
    if Streams(step) {
      StreamFrame(s, step);
    } else if step.Record? {
      RecordFrame(s, step);
    } else if Appends(step) {
      AppendOverIntact(s, step);
    } else {
      SweepFrame(s, step);
    }
  }

  lemma AppendOverIntact(s: Run, step: Step)
    requires FlowInv(s) && Enabled(s, step) && s.footing == Intact && Appends(step)
    ensures var t := Apply(s, step);
            t.footing == Intact || (step.FailControl? && t.append == Unlocked && t.footing in {Torn, Gapped})
  {
    hide Encode, DoneLine, Stamped, Overlay, IsFooter, Shape, Paced, Locked, Ordered;
    if step == Unlock {
      AppendedFile(s);
      StableShape(Resting(s), |s.resource|, s.text);
      StampedLength(s.Total(), s.Trailer(), Encode(DoneLine(s.append.range)));
      OverlayAt(Resting(s), |s.resource| + s.Trailer(), s.Buffer()[..s.append.reached]);
    }
  }

  lemma FreeLockStays(s: Run, step: Step)
    requires Enabled(s, step) && s.append == Unlocked && !step.Lock?
    ensures Apply(s, step).footing == s.footing && Apply(s, step).append == Unlocked
  {
    hide Enabled, Apply;
    if Streams(step) {
      StreamFrame(s, step);
    } else if step.Record? {
      RecordFrame(s, step);
    } else if Appends(step) {
      NeedsLock(s, step);
    } else {
      SweepFrame(s, step);
    }
  }

  lemma NeedsLock(s: Run, step: Step)
    requires Enabled(s, step) && Appends(step) && !step.Lock?
    ensures s.append.Appending?
  {
    hide Encode, Stamped, DoneLine;
  }

  lemma CalmGoesOn(ws: seq<World>, i: nat, step: Step)
    requires i + 1 < |ws| && IsCareful(ws) && IsCalm(ws, i) && WorldFlow(ws[i]) && StepAt(ws, i, step)
    ensures IsCalm(ws, i + 1)
  {
    hide Enabled, Apply, FlowInv, FailsAt, LocksAt;
    var s := ws[i].run;
    if s.footing == Intact {
      OverIntact(s, step);
      if step.FailControl? { FailIsAt(ws, i, step); }
    } else {
      var k :| 0 <= k < i && FailsAt(ws, k) && IsOneRun(ws, k, i);
      if step.Lock? { LockIsAt(ws, i, step); }
      FreeLockStays(s, step);
      assert IsOneRun(ws, k, i + 1);
    }
  }

  lemma FailIsAt(ws: seq<World>, i: nat, step: Step)
    requires i + 1 < |ws| && StepAt(ws, i, step) && step.FailControl?
    ensures FailsAt(ws, i) && IsOneRun(ws, i, i + 1)
  {
    hide StepAt;
    assert step == FailControl(step.moves);
    StepGoesOn(ws, i, step);
  }

  lemma StepGoesOn(ws: seq<World>, i: nat, step: Step)
    requires i + 1 < |ws| && StepAt(ws, i, step)
    ensures ws[i].Scattering? && ws[i + 1].Scattering?
  {
    hide Enabled, Apply;
  }

  lemma LockIsAt(ws: seq<World>, i: nat, step: Step)
    requires i + 1 < |ws| && StepAt(ws, i, step) && step.Lock?
    ensures LocksAt(ws, i)
  {
    hide StepAt;
    assert step == Lock(step.i);
  }

  /** Runs start on an intact footer, and go on by steps. */
  lemma RunsStartIntact(w: World, w': World)
    requires Next(w, w') && w'.Scattering?
    ensures w'.run.footing == Intact
         || (w.Scattering? && exists step :: Enabled(w.run, step) && w' == Scattering(Apply(w.run, step)))
  {
    hide Enabled, Apply, Decides, Encode, Header, Stamped, Overlay, Stable;
  }

  lemma {:induction false} CarefulIsCalm(ws: seq<World>, i: nat)
    requires History(ws) && IsCareful(ws) && i < |ws|
    ensures IsCalm(ws, i) && MishapsOf(ws[i]) == {}
  {
    hide Next, IsCalm, IsCareful, MishapsOf, WorldFlow;
    if i == 0 {
      StartsCalm(ws);
    } else {
      CarefulIsCalm(ws, i - 1);
      HistoryKeepsFlow(ws, i - 1);
      var w, w' := ws[i - 1], ws[i];
      assert Next(w, w');
      if w'.Scattering? {
        RunsStartIntact(w, w');
        if w'.run.footing == Intact {
          IntactIsCalm(ws, i);
        } else {
          var step :| Enabled(w.run, step) && w' == Scattering(Apply(w.run, step));
          CalmStep(ws, i - 1, step);
        }
      } else {
        MishapsStay(w, w');
        IntactIsCalm(ws, i);
      }
      if w'.Scattering? { CalmHasNone(ws, i); }
    }
  }

  lemma StartsCalm(ws: seq<World>)
    requires History(ws)
    ensures IsCalm(ws, 0) && MishapsOf(ws[0]) == {}
  {
    hide Next;
  }

  lemma IntactIsCalm(ws: seq<World>, i: nat)
    requires i < |ws| && (ws[i].Scattering? ==> ws[i].run.footing == Intact)
    ensures IsCalm(ws, i)
  {}

  lemma CalmStep(ws: seq<World>, i: nat, step: Step)
    requires i + 1 < |ws| && IsCareful(ws) && IsCalm(ws, i) && WorldFlow(ws[i])
    requires ws[i].Scattering? && Enabled(ws[i].run, step) && ws[i + 1] == Scattering(Apply(ws[i].run, step))
    ensures IsCalm(ws, i + 1)
  {
    hide IsCalm, IsCareful, WorldFlow, Enabled, Apply;
    assert StepAt(ws, i, step);
    CalmGoesOn(ws, i, step);
  }

  lemma CalmHasNone(ws: seq<World>, i: nat)
    requires i < |ws| && IsCalm(ws, i) && ws[i].Scattering?
    ensures MishapsOf(ws[i]) == {}
  {
    hide FailsAt, IsOneRun;
  }

  /** A file is left with no mishap but its run's. */
  lemma MishapsStay(w: World, w': World)
    requires Next(w, w') && !w'.Scattering? && MishapsOf(w) == {}
    ensures MishapsOf(w') == {}
  {
    hide Enabled, Apply, Decides, Encode, Header, Stamped, Overlay;
  }

  /** Where no run appends again once one of its appends has failed, there is no mishap: every record is true and
      every download that succeeds is exact. */
  lemma CarefulHistoriesHold(ws: seq<World>, i: nat)
    requires History(ws) && IsSteady(ws) && IsCareful(ws) && i < |ws|
    ensures MishapsOf(ws[i]) == {} && Trusted(FileOf(ws[i]), OriginOf(ws[i]))
    ensures ws[i].Complete? ==> ws[i].file == ws[i].resource == ws[i].hashed
  {
    hide History, IsCareful, IsCalm, MishapsOf, Trusted, HeededSince, IsSteady;
    forall j | 0 <= j < |ws|
      ensures MishapsOf(ws[j]) == {}
    {
      CarefulIsCalm(ws, j);
    }
    NoMishapIsHeeded(ws);
    RecordsAreTrue(ws, i);
    if ws[i].Complete? { DownloadsAreExact(ws, i); }
  }
}
