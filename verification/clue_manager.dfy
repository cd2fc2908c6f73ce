/** ClueManager.tsx: the clue stage and its evidence-tools text. */
module ClueManager {
  import opened Types
  import opened Gateway
  import opened App
  import Seqs

  const DefaultTools: string :=
    "3d printer, AI Photo software to create incriminating photos of characters (recieving bribes etc), Paper printer, various household knick-knacks"

  /** The tools box as it opens: the document's tools, or the local default when they are empty. */
  function InitialTools(d: Mystery): (t: string)
    ensures d.clueTools != "" ==> t == d.clueTools
    ensures d.clueTools == "" ==> t == DefaultTools
    ensures t != ""
  {
    if d.clueTools != "" then d.clueTools else DefaultTools
  }

  /** Editing the tools box commits the text to the document at once. */
  function ToolsPatch(tools: string): (p: MysteryPatch)
    ensures Keys(p) == {ClueTools} && PatchGet(p, ClueTools) == Some(TextValue(tools))
  {
    var p := NoChange.(clueTools := Some(tools));
    assert Keys(p) == {ClueTools} by {
      forall f ensures f in Keys(p) <==> f == ClueTools { KeysMeaning(p, f); }
    }
    p
  }

  /** What the clue request is given. */
  datatype ClueRequest = ClueRequest(story: string, timeline: string, environment: string, tools: string)

  function ClueRequestFor(d: Mystery, tools: string): ClueRequest {
    ClueRequest(d.coreStory, d.timeline, d.environment, tools)
  }

  /** `handleGenerate`: the tools are committed first, then the clue list on success. */
  function GeneratePatches(tools: string, reply: Outcome<seq<Clue>>): (ps: seq<MysteryPatch>)
    ensures |ps| == (if reply.Ok? then 2 else 1) && ps[0] == ToolsPatch(tools)
  {
    match reply
    case Ok(clues) => [ToolsPatch(tools), NoChange.(clues := Some(clues))]
    case Err(_) => [ToolsPatch(tools)]
  }

  /**
   * After generating, the document holds the box's tools whatever the outcome; the clue list is
   * the reply on success and unchanged on failure; nothing else changes.
   */
  lemma GenerateEffect(d: Mystery, tools: string, reply: Outcome<seq<Clue>>)
    ensures var n := UpdateAll(d, GeneratePatches(tools, reply));
      && n.clueTools == tools
      && n.clues == (if reply.Ok? then reply.value else d.clues)
      && SameOutside(d, n, {ClueTools, Clues})
  {
    var first := UpdateData(d, ToolsPatch(tools));
    UpdateDataChangesOnlyKeys(d, ToolsPatch(tools));
    if reply.Ok? {
      var p := NoChange.(clues := Some(reply.value));
      UpdateAllShort(d, ToolsPatch(tools), p);
      assert Keys(p) == {Clues} by {
        forall f ensures f in Keys(p) <==> f == Clues { KeysMeaning(p, f); }
      }
      UpdateDataChangesOnlyKeys(first, p);
    } else {
      UpdateAllShort(d, ToolsPatch(tools), ToolsPatch(tools));
    }
  }

  /** `deleteClue` */
  function DeleteClue(clues: seq<Clue>, id: string): (r: seq<Clue>)
    ensures |r| <= |clues|
    ensures forall j :: 0 <= j < |r| ==> r[j] in clues && r[j].id != id
    ensures forall j :: 0 <= j < |clues| && clues[j].id != id ==> clues[j] in r
  {
    Seqs.Without(clues, (c: Clue) => c.id, id)
  }

  /** Deleting keeps the remaining clues in order and drops exactly the clues carrying the id. */
  lemma DeleteClueShape(a: seq<Clue>, b: seq<Clue>, id: string)
    ensures DeleteClue(a + b, id) == DeleteClue(a, id) + DeleteClue(b, id)
    ensures |DeleteClue(a, id)| == |a| - Seqs.Count(a, (c: Clue) => c.id, id)
  {
    var key := (c: Clue) => c.id;
    Seqs.WithoutAppend(a, b, key, id);
    Seqs.WithoutLength(a, key, id);
  }

  /** "Next" is enabled iff there is at least one clue. */
  predicate CanProceed(d: Mystery) {
    |d.clues| != 0
  }

  /** A failed generation leaves the gate as it was; a non-empty reply opens it. */
  lemma CanProceedAfterGenerate(d: Mystery, tools: string, reply: Outcome<seq<Clue>>)
    ensures reply.Err? ==> (CanProceed(UpdateAll(d, GeneratePatches(tools, reply))) <==> CanProceed(d))
    ensures reply.Ok? ==> (CanProceed(UpdateAll(d, GeneratePatches(tools, reply))) <==> reply.value != [])
  {
    GenerateEffect(d, tools, reply);
  }
}
