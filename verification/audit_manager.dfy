/**
 * AuditManager.tsx: the combined audit (consistency report plus Rule-of-Three beats), the
 * issue resolver, the two busy flags, and the two display filters of the audit tabs.
 */
module AuditManager {
  import opened Types
  import opened Gateway
  import opened App

  // ---------------------------------------------------------------------------------------
  // Analysis

  /** `handleRunAnalysis`: one update with both results if both requests succeed, none otherwise. */
  function AnalysisPatch(report: Outcome<AuditReply>, beats: Outcome<seq<StoryBeat>>): (p: Option<MysteryPatch>)
    ensures p.Some? <==> report.Ok? && beats.Ok?
    ensures p.Some? ==> Keys(p.value) == {Report, Beats}
  {
    if report.Ok? && beats.Ok? then
      var p := NoChange.(consistencyReport := Some(Some(ReportOf(report.value))), beats := Some(beats.value));
      assert Keys(p) == {Report, Beats} by {
        forall f ensures f in Keys(p) <==> f in {Report, Beats} { KeysMeaning(p, f); }
      }
      Some(p)
    else None
  }

  /** A successful analysis stores the reply as a report with every issue open, and the beats; nothing else changes. */
  lemma AnalysisEffect(d: Mystery, reply: AuditReply, beats: seq<StoryBeat>)
    ensures var n := UpdateData(d, AnalysisPatch(Ok(reply), Ok(beats)).value);
      && n.consistencyReport == Some(ReportOf(reply)) && n.beats == beats
      && (forall i :: 0 <= i < |n.consistencyReport.value.issues| ==> !n.consistencyReport.value.issues[i].fixed)
      && SameOutside(d, n, {Report, Beats})
  {
    UpdateDataChangesOnlyKeys(d, AnalysisPatch(Ok(reply), Ok(beats)).value);
  }

  // ---------------------------------------------------------------------------------------
  // Fixing an issue

  /** The marker a fix appends to the report's notes. */
  function FixNote(summary: string): string {
    "\n(Fixed: " + summary + ")"
  }

  /** The issue list after a fix: every issue with the id is marked fixed and takes the summary as its suggestion. */
  function MarkFixed(issues: seq<ConsistencyIssue>, id: string, summary: string): (r: seq<ConsistencyIssue>)
    ensures |r| == |issues|
    ensures forall i :: 0 <= i < |issues| && issues[i].id != id ==> r[i] == issues[i]
    ensures forall i :: 0 <= i < |issues| && issues[i].id == id ==>
      r[i].fixed && r[i].suggestion == summary && r[i].id == id && r[i].description == issues[i].description
  {
    seq(|issues|, i requires 0 <= i < |issues| =>
      if issues[i].id == id then issues[i].(fixed := true, suggestion := summary) else issues[i])
  }

  /** The report after a fix; a missing report stays missing. */
  function FixReport(report: Option<ConsistencyReport>, id: string, summary: string): (r: Option<ConsistencyReport>)
    ensures r.Some? <==> report.Some?
    ensures r.Some? ==> r.value.isValid == report.value.isValid
                        && r.value.issues == MarkFixed(report.value.issues, id, summary)
                        && r.value.notes == report.value.notes + FixNote(summary)
  {
    match report
    case None => None
    case Some(rep) => Some(rep.(issues := MarkFixed(rep.issues, id, summary), notes := rep.notes + FixNote(summary)))
  }

  /** `handleFixIssue`'s update: the returned timeline, and the report as fixed. */
  function FixPatch(d: Mystery, id: string, reply: FixReply): (p: MysteryPatch)
    ensures Keys(p) == {Timeline, Report}
    ensures PatchGet(p, Timeline) == Some(TextValue(reply.timeline))
    ensures PatchGet(p, Report) == Some(ReportValue(FixReport(d.consistencyReport, id, reply.summary)))
  {
    var p := NoChange.(timeline := Some(reply.timeline), consistencyReport := Some(FixReport(d.consistencyReport, id, reply.summary)));
    assert Keys(p) == {Timeline, Report} by {
      forall f ensures f in Keys(p) <==> f in {Timeline, Report} { KeysMeaning(p, f); }
    }
    p
  }

  /**
   * A fix replaces the timeline (also when there is no report), marks the issue fixed with the
   * summary, appends the marker so the old notes are a prefix of the new ones, and changes
   * nothing outside the timeline and the report.
   */
  lemma FixEffect(d: Mystery, id: string, reply: FixReply)
    ensures var n := UpdateData(d, FixPatch(d, id, reply));
      && n.timeline == reply.timeline
      && n.consistencyReport == FixReport(d.consistencyReport, id, reply.summary)
      && (d.consistencyReport.None? ==> n.consistencyReport.None?)
      && (d.consistencyReport.Some? ==>
            && n.consistencyReport.Some?
            && n.consistencyReport.value.notes[..|d.consistencyReport.value.notes|] == d.consistencyReport.value.notes
            && |n.consistencyReport.value.issues| == |d.consistencyReport.value.issues|)
      && SameOutside(d, n, {Timeline, Report})
  {
    UpdateDataChangesOnlyKeys(d, FixPatch(d, id, reply));
  }

  /** A sequence of fixes, each an issue id and the resolver's summary, applied to a report in order. */
  function ApplyFixes(report: ConsistencyReport, fixes: seq<(string, string)>): ConsistencyReport
    decreases |fixes|
  {
    if fixes == [] then report
    else
      var fixed := FixReport(Some(report), fixes[0].0, fixes[0].1).value;
      ApplyFixes(fixed, fixes[1..])
  }

  /** The markers of a sequence of fixes, in fix order. */
  function Markers(fixes: seq<(string, string)>): string
    decreases |fixes|
  {
    if fixes == [] then "" else FixNote(fixes[0].1) + Markers(fixes[1..])
  }

  /**
   * After N fixes the notes are the original notes followed by the N markers in fix order; the
   * verdict, the issue count and the issue ids never change, and an issue once fixed stays fixed.
   */
  lemma {:induction false} ApplyFixesProperties(report: ConsistencyReport, fixes: seq<(string, string)>)
    ensures var r := ApplyFixes(report, fixes);
      && r.notes == report.notes + Markers(fixes)
      && r.isValid == report.isValid
      && |r.issues| == |report.issues|
      && (forall i :: 0 <= i < |r.issues| ==> r.issues[i].id == report.issues[i].id)
      && (forall i :: 0 <= i < |r.issues| && report.issues[i].fixed ==> r.issues[i].fixed)
    decreases |fixes|
  {
    if fixes != [] {
      var fixed := FixReport(Some(report), fixes[0].0, fixes[0].1).value;
      ApplyFixesProperties(fixed, fixes[1..]);
      assert report.notes + FixNote(fixes[0].1) + Markers(fixes[1..]) == report.notes + Markers(fixes);
    }
  }

  /** Fixing an open issue whose id is unique closes exactly that one issue. */
  lemma FixClosesOne(report: ConsistencyReport, t: nat, summary: string)
    requires t < |report.issues| && !report.issues[t].fixed
    requires forall i :: 0 <= i < |report.issues| && i != t ==> report.issues[i].id != report.issues[t].id
    ensures var r := FixReport(Some(report), report.issues[t].id, summary).value;
      r.issues == report.issues[t := report.issues[t].(fixed := true, suggestion := summary)]
  {
    var r := FixReport(Some(report), report.issues[t].id, summary).value;
    forall i | 0 <= i < |report.issues|
      ensures r.issues[i] == report.issues[t := report.issues[t].(fixed := true, suggestion := summary)][i]
    {
    }
  }

  /** What the resolver is given. */
  datatype FixRequest = FixRequest(doc: Mystery, description: string)

  // ---------------------------------------------------------------------------------------
  // Display filters

  /** ASCII lower-casing. */
  function LowerChar(ch: char): (r: char)
    ensures 'A' <= ch <= 'Z' ==> 'a' <= r <= 'z' && r as int == ch as int + 32
    ensures !('A' <= ch <= 'Z') ==> r == ch
  {
    if 'A' <= ch <= 'Z' then (ch as int - 'A' as int + 'a' as int) as char else ch
  }

  function Lower(s: string): (r: string)
    ensures |r| == |s|
    ensures forall i :: 0 <= i < |s| ==> r[i] == LowerChar(s[i])
  {
    seq(|s|, i requires 0 <= i < |s| => LowerChar(s[i]))
  }

  /** Lower-casing twice is lower-casing once. */
  lemma LowerIdempotent(s: string)
    ensures Lower(Lower(s)) == Lower(s)
  {
  }

  /** `w` occurs in `s` at position `i`. */
  predicate OccursAt(s: string, w: string, i: int) {
    0 <= i && i + |w| <= |s| && s[i..i + |w|] == w
  }

  /** `s.includes(w)` */
  predicate Contains(s: string, w: string) {
    exists i :: 0 <= i <= |s| && OccursAt(s, w, i)
  }

  const GuiltKeywords: seq<string> := ["poison", "tamper", "stab", "blood", "weapon", "took", "left"]

  /** A private disclosure is a guilt hook iff its lower-case form contains one of the keywords. */
  predicate IsGuiltHook(p: string) {
    exists k :: 0 <= k < |GuiltKeywords| && Contains(Lower(p), GuiltKeywords[k])
  }

  /** The disclosures listed on the Ambiguous Guilt tab for one character. */
  function GuiltHooks(info: seq<string>): (r: seq<string>)
    ensures forall i :: 0 <= i < |r| ==> r[i] in info && IsGuiltHook(r[i])
    ensures forall i :: 0 <= i < |info| && IsGuiltHook(info[i]) ==> info[i] in r
    decreases |info|
  {
    if info == [] then []
    else (if IsGuiltHook(info[0]) then [info[0]] else []) + GuiltHooks(info[1..])
  }

  /** The filter keeps order (it distributes over concatenation) and ignores letter case. */
  lemma {:induction false} GuiltHooksAppend(a: seq<string>, b: seq<string>)
    ensures GuiltHooks(a + b) == GuiltHooks(a) + GuiltHooks(b)
    decreases |a|
  {
    if a == [] {
      assert a + b == b;
    } else {
      assert (a + b)[1..] == a[1..] + b;
      GuiltHooksAppend(a[1..], b);
    }
  }

  lemma GuiltHookIgnoresCase(p: string)
    ensures IsGuiltHook(Lower(p)) <==> IsGuiltHook(p)
  {
    LowerIdempotent(p);
  }

  /** A disclosure that is a hook stays one whatever text surrounds it. */
  lemma GuiltHookInContext(a: string, p: string, b: string)
    requires IsGuiltHook(p)
    ensures IsGuiltHook(a + p + b)
  {
    var lp := Lower(p);
    var k :| 0 <= k < |GuiltKeywords| && Contains(lp, GuiltKeywords[k]);
    var w := GuiltKeywords[k];
    var i :| 0 <= i <= |lp| && OccursAt(lp, w, i);
    var t := a + p + b;
    var s := Lower(t);
    forall j | 0 <= j < |w|
      ensures s[|a| + i + j] == w[j]
    {
      assert t[|a| + i + j] == p[i + j];
      assert lp[i..i + |w|][j] == lp[i + j];
    }
    assert s[|a| + i..|a| + i + |w|] == w;
    assert OccursAt(s, w, |a| + i);
    assert Contains(s, GuiltKeywords[k]);
  }

  /** Two sample disclosures: one naming a weapon in capitals, one with no keyword. */
  lemma GuiltHookExamples()
    ensures IsGuiltHook("Hid the WEAPON")
    ensures !IsGuiltHook("Hid a fox")
  {
    var s := Lower("Hid the WEAPON");
    assert s == "hid the weapon";
    assert OccursAt(s, GuiltKeywords[4], 8);
    var t := Lower("Hid a fox");
    assert t == "hid a fox";
    forall k, i | 0 <= k < |GuiltKeywords| && 0 <= i <= |t|
      ensures !OccursAt(t, GuiltKeywords[k], i)
    {
      var w := GuiltKeywords[k];
      if i + |w| <= |t| {
        assert t[i..i + |w|][0] == t[i] != w[0];
      }
    }
  }

  /** The Rule-of-Three badge passes iff the beat has at least three clues. */
  predicate BeatPasses(beat: StoryBeat) {
    |beat.clues| >= 3
  }

  /** The badge's boundary: three clues pass, two do not. */
  lemma BeatBadgeBoundary(b: StoryBeat, c1: string, c2: string, c3: string)
    ensures BeatPasses(b.(clues := [c1, c2, c3])) && !BeatPasses(b.(clues := [c1, c2]))
    ensures BeatPasses(b) ==> BeatPasses(b.(clues := b.clues + [c1]))
  {
  }

  // ---------------------------------------------------------------------------------------
  // The panel

  /** The component's busy flags: an audit is running, or one issue is being fixed. */
  class Panel {
    var loading: bool
    var fixingId: Option<string>

    constructor ()
      ensures !loading && fixingId.None?
    {
      loading := false;
      fixingId := None;
    }

    /** A Fix button is shown for open issues once loading has ended, and enabled only when no fix is running. */
    predicate CanFix(issue: ConsistencyIssue)
      reads this
    {
      !issue.fixed && !loading && fixingId.None?
    }

    /** "Next" is disabled while an audit runs. */
    predicate CanProceed()
      reads this
    {
      !loading
    }

    /** `handleRunAnalysis` with the replies of the two parallel requests. */
    method RunAnalysis(store: Store, report: Outcome<AuditReply>, beats: Outcome<seq<StoryBeat>>) returns (request: Mystery)
      requires store.Valid() && !loading
      modifies this, store
      ensures store.Valid() && !loading && fixingId == old(fixingId)
      ensures request == old(store.doc)
      ensures report.Ok? && beats.Ok? ==> store.doc == UpdateData(old(store.doc), AnalysisPatch(report, beats).value)
      ensures !(report.Ok? && beats.Ok?) ==> store.doc == old(store.doc)
      ensures store.view == old(store.view) && store.generatingStep == old(store.generatingStep)
    {
      loading := true;
      request := store.doc;
      var p := AnalysisPatch(report, beats);
      if p.Some? {
        store.Update(p.value);
      }
      loading := false;
    }

    /** `handleFixIssue` with the resolver's reply. */
    method FixIssue(store: Store, issue: ConsistencyIssue, reply: Outcome<FixReply>) returns (request: FixRequest)
      requires store.Valid() && CanFix(issue)
      modifies this, store
      ensures store.Valid() && fixingId.None? && loading == old(loading)
      ensures request == FixRequest(old(store.doc), issue.description)
      ensures reply.Ok? ==> store.doc == UpdateData(old(store.doc), FixPatch(old(store.doc), issue.id, reply.value))
      ensures reply.Err? ==> store.doc == old(store.doc)
      ensures store.view == old(store.view) && store.generatingStep == old(store.generatingStep)
    {
      fixingId := Some(issue.id);
      var data := store.doc;
      request := FixRequest(data, issue.description);
      if reply.Ok? {
        store.Update(FixPatch(data, issue.id, reply.value));
      }
      fixingId := None;
    }

    /** Opening the stage runs the audit when there is no report yet. */
    method Mount(store: Store, report: Outcome<AuditReply>, beats: Outcome<seq<StoryBeat>>)
      requires store.Valid() && !loading && fixingId.None?
      modifies this, store
      ensures store.Valid() && !loading && fixingId.None?
      ensures old(store.doc.consistencyReport).Some? ==> store.doc == old(store.doc)
      ensures old(store.doc.consistencyReport).None? && report.Ok? && beats.Ok? ==>
                store.doc == UpdateData(old(store.doc), AnalysisPatch(report, beats).value)
                && store.doc.consistencyReport == Some(ReportOf(report.value)) && store.doc.beats == beats.value
      ensures store.view == old(store.view) && store.generatingStep == old(store.generatingStep)
      ensures old(store.doc.consistencyReport).None? && !(report.Ok? && beats.Ok?) ==> store.doc == old(store.doc)
    {
      if store.doc.consistencyReport.None? {
        var _ := RunAnalysis(store, report, beats);
        if report.Ok? && beats.Ok? {
          AnalysisEffect(old(store.doc), report.value, beats.value);
        }
      }
    }
  }
}
