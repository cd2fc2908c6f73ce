/** BlueprintManager.tsx: the timeline stage. */
module BlueprintManager {
  import opened Types
  import opened Gateway
  import opened App

  /** `ref || ""` */
  function OrEmpty(ref: Option<string>): (s: string)
    ensures ref.None? ==> s == ""
    ensures ref.Some? ==> s == ref.value
  {
    ref.GetOr("")
  }

  /** What the timeline request is given. */
  datatype TimelineRequest = TimelineRequest(incident: string, cast: seq<Character>, killerId: string, saboteurId: string, environment: string)

  /** The request built from the document; a missing role is sent as the empty string. */
  function TimelineRequestFor(d: Mystery): (q: TimelineRequest)
    ensures q.cast == d.characters && q.incident == d.coreStory && q.environment == d.environment
    ensures d.killerId.None? ==> q.killerId == ""
    ensures d.saboteurId.None? ==> q.saboteurId == ""
    ensures d.killerId.Some? ==> q.killerId == d.killerId.value
    ensures d.saboteurId.Some? ==> q.saboteurId == d.saboteurId.value
  {
    TimelineRequest(d.coreStory, d.characters, OrEmpty(d.killerId), OrEmpty(d.saboteurId), d.environment)
  }

  /** `handleGenerateTimeline`: a timeline-only update on success, none on failure. */
  function TimelinePatch(reply: Outcome<string>): (p: Option<MysteryPatch>)
    ensures p.Some? <==> reply.Ok?
    ensures p.Some? ==> Keys(p.value) == {Timeline} && PatchGet(p.value, Timeline) == Some(TextValue(reply.value))
  {
    match reply
    case Ok(t) =>
      var p := NoChange.(timeline := Some(t));
      assert Keys(p) == {Timeline} by {
        forall f ensures f in Keys(p) <==> f == Timeline { KeysMeaning(p, f); }
      }
      Some(p)
    case Err(_) => None
  }

  /** "Next" is enabled iff there is a timeline and no generation is running. */
  predicate CanProceed(d: Mystery, loading: bool) {
    d.timeline != "" && !loading
  }

  /**
   * Generating changes the timeline and nothing else; once a non-empty timeline has arrived and
   * loading has ended, "next" is enabled, and a failure leaves the gate as it was.
   */
  lemma TimelineEffect(d: Mystery, reply: Outcome<string>)
    ensures reply.Ok? ==> var n := UpdateData(d, TimelinePatch(reply).value);
      && n.timeline == reply.value && SameOutside(d, n, {Timeline})
      && (CanProceed(n, false) <==> reply.value != "")
    ensures reply.Err? ==> TimelinePatch(reply).None?
  {
    if reply.Ok? {
      UpdateDataChangesOnlyKeys(d, TimelinePatch(reply).value);
    }
  }
}
