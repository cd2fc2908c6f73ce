/**
 * App.tsx: the single working document, its shallow-merge update, persistence and restore,
 * the reset action, the stage navigation, and the one-click "Lucky" run of the whole pipeline.
 */
module App {
  import opened Types
  import opened Gateway

  const DefaultEnvironment: string := "A grand Victorian estate"
  const DefaultParties: string := "High-society relatives and staff"
  const DefaultClueTools: string := "Printer, household items, glue, ink"
  const DefaultNumGuests: int := 6

  /** The document of a first start, and of a confirmed reset. */
  function DefaultMystery(): Mystery {
    Mystery("", "", "", DefaultEnvironment, DefaultParties, DefaultClueTools, "", "", "", DefaultNumGuests,
      [], [], None, None, [], None)
  }

  // ---------------------------------------------------------------------------------------
  // updateData

  /** `{ ...prev, ...patch }` */
  function UpdateData(prev: Mystery, patch: MysteryPatch): Mystery {
    Mystery(
      patch.title.GetOr(prev.title), patch.theme.GetOr(prev.theme), patch.victimName.GetOr(prev.victimName),
      patch.environment.GetOr(prev.environment), patch.generalParties.GetOr(prev.generalParties),
      patch.clueTools.GetOr(prev.clueTools), patch.coreStory.GetOr(prev.coreStory),
      patch.timeline.GetOr(prev.timeline), patch.twist.GetOr(prev.twist), patch.numGuests.GetOr(prev.numGuests),
      patch.characters.GetOr(prev.characters), patch.clues.GetOr(prev.clues),
      patch.killerId.GetOr(prev.killerId), patch.saboteurId.GetOr(prev.saboteurId),
      patch.beats.GetOr(prev.beats), patch.consistencyReport.GetOr(prev.consistencyReport))
  }

  /** Field by field: a key present in the patch takes the patch's value, every other key keeps its value. */
  lemma UpdateDataFieldwise(prev: Mystery, patch: MysteryPatch, f: Field)
    ensures Get(UpdateData(prev, patch), f) == PatchGet(patch, f).GetOr(Get(prev, f))
    ensures f !in Keys(patch) ==> Get(UpdateData(prev, patch), f) == Get(prev, f)
    ensures f in Keys(patch) ==> Some(Get(UpdateData(prev, patch), f)) == PatchGet(patch, f)
  {
    KeysMeaning(patch, f);
    match f
    case Title =>
    case Theme =>
    case VictimName =>
    case Environment =>
    case GeneralParties =>
    case ClueTools =>
    case CoreStory =>
    case Timeline =>
    case Twist =>
    case NumGuests =>
    case Characters =>
    case Clues =>
    case KillerId =>
    case SaboteurId =>
    case Beats =>
    case Report =>
  }

  /** An update touches nothing outside the keys it supplies. */
  lemma UpdateDataChangesOnlyKeys(prev: Mystery, patch: MysteryPatch)
    ensures SameOutside(prev, UpdateData(prev, patch), Keys(patch))
  {
    forall f | f !in Keys(patch)
      ensures Get(prev, f) == Get(UpdateData(prev, patch), f)
    {
      UpdateDataFieldwise(prev, patch, f);
    }
  }

  /** `q` applied after `p`: the later update wins on a shared key. */
  function Then(p: MysteryPatch, q: MysteryPatch): MysteryPatch {
    MysteryPatch(
      if q.title.Some? then q.title else p.title,
      if q.theme.Some? then q.theme else p.theme,
      if q.victimName.Some? then q.victimName else p.victimName,
      if q.environment.Some? then q.environment else p.environment,
      if q.generalParties.Some? then q.generalParties else p.generalParties,
      if q.clueTools.Some? then q.clueTools else p.clueTools,
      if q.coreStory.Some? then q.coreStory else p.coreStory,
      if q.timeline.Some? then q.timeline else p.timeline,
      if q.twist.Some? then q.twist else p.twist,
      if q.numGuests.Some? then q.numGuests else p.numGuests,
      if q.characters.Some? then q.characters else p.characters,
      if q.clues.Some? then q.clues else p.clues,
      if q.killerId.Some? then q.killerId else p.killerId,
      if q.saboteurId.Some? then q.saboteurId else p.saboteurId,
      if q.beats.Some? then q.beats else p.beats,
      if q.consistencyReport.Some? then q.consistencyReport else p.consistencyReport)
  }

  /** Two successive updates are one update by their combination; the empty update is the identity. */
  lemma UpdateDataComposes(d: Mystery, p: MysteryPatch, q: MysteryPatch)
    ensures UpdateData(UpdateData(d, p), q) == UpdateData(d, Then(p, q))
    ensures UpdateData(d, NoChange) == d
    ensures Keys(Then(p, q)) == Keys(p) + Keys(q)
  {
    forall f
      ensures f in Keys(Then(p, q)) <==> f in Keys(p) + Keys(q)
    {
      KeysMeaning(p, f);
      KeysMeaning(q, f);
      KeysMeaning(Then(p, q), f);
      match f
      case Title =>
      case Theme =>
      case VictimName =>
      case Environment =>
      case GeneralParties =>
      case ClueTools =>
      case CoreStory =>
      case Timeline =>
      case Twist =>
      case NumGuests =>
      case Characters =>
      case Clues =>
      case KillerId =>
      case SaboteurId =>
      case Beats =>
      case Report =>
    }
  }

  /** Successive commits, in order. */
  function UpdateAll(d: Mystery, patches: seq<MysteryPatch>): Mystery
    decreases |patches|
  {
    if patches == [] then d else UpdateAll(UpdateData(d, patches[0]), patches[1..])
  }

  /** One or two updates in a row. */
  lemma UpdateAllShort(d: Mystery, p: MysteryPatch, q: MysteryPatch)
    ensures UpdateAll(d, [p]) == UpdateData(d, p)
    ensures UpdateAll(d, [p, q]) == UpdateData(UpdateData(d, p), q)
  {
    assert [p][1..] == [];
    assert [p, q][1..] == [q];
    assert [q][1..] == [];
    assert UpdateAll(d, [p, q]) == UpdateAll(UpdateData(d, p), [q]);
  }

  /** A patch that replaces only the character list. */
  function CastPatch(cs: seq<Character>): (p: MysteryPatch)
    ensures Keys(p) == {Characters} && PatchGet(p, Characters) == Some(CastValue(cs))
  {
    var p := NoChange.(characters := Some(cs));
    assert Keys(p) == {Characters} by {
      forall f ensures f in Keys(p) <==> f == Characters { KeysMeaning(p, f); }
    }
    p
  }

  // ---------------------------------------------------------------------------------------
  // Persistence

  /** The stored document blob: absent (or empty), not parseable, or a parsed document. */
  datatype SavedBlob = NoBlob | Unparsable | Saved(doc: Mystery)

  /** The document chosen at startup. */
  function InitialMystery(blob: SavedBlob): (d: Mystery)
    ensures blob.Saved? ==> d == blob.doc
    ensures !blob.Saved? ==> d.characters == [] && d.clues == [] && d.beats == [] && d.consistencyReport.None?
    ensures !blob.Saved? ==> d.numGuests == 6 && d.killerId.None? && d.saboteurId.None? && d.timeline == ""
  {
    if blob.Saved? then blob.doc else DefaultMystery()
  }

  /** The view chosen at startup: the saved one if it names a view, SETUP otherwise. */
  function InitialView(saved: Option<string>): (v: ViewState)
    ensures forall w :: saved == Some(ViewName(w)) ==> v == w
    ensures v != SETUP ==> saved == Some(ViewName(v))
  {
    if saved.Some? && ViewFromName(saved.value).Some? then ViewFromName(saved.value).value else SETUP
  }

  // ---------------------------------------------------------------------------------------
  // Navigation

  datatype Step = Step(id: ViewState, caption: string)

  /** The stage selector, in display order. */
  const Steps: seq<Step> := [
    Step(SETUP, "Concept"), Step(CASTING, "Casting"), Step(PLANNING, "Timeline"), Step(CLUES, "Clues"),
    Step(DOSSIERS, "Dossiers"), Step(AUDIT, "Audit"), Step(OUTPUT, "Print")]

  /** Where each view's "next" button leads. */
  function NextView(v: ViewState): Option<ViewState> {
    match v
    case SETUP => Some(CASTING)
    case CASTING => Some(PLANNING)
    case PLANNING => Some(CLUES)
    case CLUES => Some(DOSSIERS)
    case DOSSIERS => Some(AUDIT)
    case AUDIT => Some(OUTPUT)
    case OUTPUT => None
  }

  /** Where each view's "back" button leads. */
  function BackView(v: ViewState): Option<ViewState> {
    match v
    case SETUP => None
    case CASTING => Some(SETUP)
    case PLANNING => Some(CASTING)
    case CLUES => Some(PLANNING)
    case DOSSIERS => Some(CLUES)
    case AUDIT => Some(DOSSIERS)
    case OUTPUT => Some(AUDIT)
  }

  /**
   * The selector lists every view exactly once, and "next" and "back" walk it one step
   * forward and one step back; "back" undoes "next".
   */
  lemma NavigationFollowsSteps()
    ensures |Steps| == 7
    ensures forall i, j :: 0 <= i < j < |Steps| ==> Steps[i].id != Steps[j].id
    ensures forall i :: 0 <= i < |Steps| - 1 ==>
      NextView(Steps[i].id) == Some(Steps[i + 1].id) && BackView(Steps[i + 1].id) == Some(Steps[i].id)
    ensures NextView(Steps[6].id) == None && BackView(Steps[0].id) == None
    ensures forall v :: NextView(v).Some? ==> BackView(NextView(v).value) == Some(v)
  {
  }

  // ---------------------------------------------------------------------------------------
  // Handlers shared by App and the stage components

  /** The six concept fields of a backend concept, mapped to the document's keys. */
  function ConceptPatch(c: Concept): MysteryPatch {
    NoChange.(title := Some(c.title), victimName := Some(c.victim), environment := Some(c.atmosphere),
      coreStory := Some(c.incident), generalParties := Some(c.parties), twist := Some(c.twist))
  }

  const ConceptKeys: set<Field> := {Title, VictimName, Environment, CoreStory, GeneralParties, Twist}

  lemma ConceptPatchKeys(c: Concept)
    ensures Keys(ConceptPatch(c)) == ConceptKeys
  {
    forall f ensures f in Keys(ConceptPatch(c)) <==> f in ConceptKeys {
      KeysMeaning(ConceptPatch(c), f);
    }
  }

  /** `cast.map(c => ({ ...c, isFleshed: false }))` */
  function Prepared(cs: seq<Character>): (r: seq<Character>)
    ensures |r| == |cs|
    ensures forall j :: 0 <= j < |r| ==> !r[j].isFleshed && r[j].id == cs[j].id
    ensures forall j :: 0 <= j < |r| ==> r[j] == cs[j].(isFleshed := false)
  {
    seq(|cs|, j requires 0 <= j < |cs| => cs[j].(isFleshed := false))
  }

  /** Skeletons are already unfleshed, so preparing them changes nothing. */
  lemma PreparedSkeletons(entries: seq<CastEntry>)
    ensures Prepared(Skeletons(entries)) == Skeletons(entries)
  {
    var cast := Skeletons(entries);
    forall j | 0 <= j < |cast|
      ensures Prepared(cast)[j] == cast[j]
    {
      assert SkeletonOf(cast[j], entries[j]);
    }
  }

  /** `{ ...full, isFleshed: true }` where `full` is the character merged with its dossier reply. */
  function Fleshed(c: Character, d: Dossier): (r: Character)
    ensures r.isFleshed && r.id == c.id && r.name == c.name && r.gender == c.gender
    ensures r.archetype == c.archetype && r.initialMotive == c.initialMotive && r.secrets == c.secrets
    ensures r.preGameBlurb == d.preGameBlurb.GetOr(c.preGameBlurb) && r.background == d.background.GetOr(c.background)
    ensures r.relationships == d.relationships.GetOr(c.relationships)
    ensures r.connectionToVictim == d.connectionToVictim.GetOr(c.connectionToVictim)
    ensures r.round1 == d.round1.GetOr(c.round1) && r.round2 == d.round2.GetOr(c.round2)
  {
    WithDossier(c, d).(isFleshed := true)
  }

  // ---------------------------------------------------------------------------------------
  // Lucky

  /** What the setup form hands to the Lucky run. */
  datatype LuckyConfig = LuckyConfig(theme: string, numGuests: int, environment: string, clueTools: string, details: string)

  /** The dossiers of the first `m` skeletons, in cast order. */
  function Written(prepared: seq<Character>, dossier: nat -> Outcome<Dossier>, m: nat): seq<Character>
    requires m <= |prepared|
    requires forall j :: 0 <= j < m ==> dossier(j).Ok?
  {
    seq(m, j requires 0 <= j < m => Fleshed(prepared[j], dossier(j).value))
  }

  /** The first `m` skeletons replaced by their dossiers, the rest untouched. */
  function Progress(prepared: seq<Character>, dossier: nat -> Outcome<Dossier>, m: nat): seq<Character>
    requires m <= |prepared|
    requires forall j :: 0 <= j < m ==> dossier(j).Ok?
  {
    Written(prepared, dossier, m) + prepared[m..]
  }

  /**
   * How far the dossier phase gets over `n` characters: the replies before it all succeed,
   * and when it is short of `n` the reply at it is the first failure.
   */
  function Reached(dossier: nat -> Outcome<Dossier>, n: nat): (m: nat)
    ensures m <= n
    ensures forall j :: 0 <= j < m ==> dossier(j).Ok?
    ensures m < n ==> dossier(m).Err?
  {
    if n == 0 then 0
    else
      var m := Reached(dossier, n - 1);
      if m == n - 1 && dossier(n - 1).Ok? then n else m
  }

  /**
   * Every intermediate commit of the dossier phase keeps the cast's length and order, and its
   * fleshed characters form a prefix; the last one has every character fleshed.
   */
  lemma ProgressShape(prepared: seq<Character>, dossier: nat -> Outcome<Dossier>, m: nat)
    requires m <= |prepared|
    requires forall j :: 0 <= j < m ==> dossier(j).Ok?
    requires forall j :: 0 <= j < |prepared| ==> !prepared[j].isFleshed
    ensures var cs := Progress(prepared, dossier, m);
      && |cs| == |prepared|
      && (forall j :: 0 <= j < |cs| ==> cs[j].id == prepared[j].id)
      && (forall j :: 0 <= j < |cs| ==> (cs[j].isFleshed <==> j < m))
      && (m == |prepared| ==> AllFleshed(cs))
  {
    var cs := Progress(prepared, dossier, m);
    forall j | 0 <= j < |cs|
      ensures cs[j].id == prepared[j].id && (cs[j].isFleshed <==> j < m)
    {
      if j >= m {
        assert cs[j] == prepared[j];
      }
    }
  }

  /** Pushing the next dossier onto the written list gives the written list one step further. */
  lemma WrittenNext(prepared: seq<Character>, dossier: nat -> Outcome<Dossier>, m: nat)
    requires m < |prepared|
    requires forall j :: 0 <= j <= m ==> dossier(j).Ok?
    ensures Written(prepared, dossier, m + 1) == Written(prepared, dossier, m) + [Fleshed(prepared[m], dossier(m).value)]
  {
  }

  /** Committing a characters-only update to a copy of `base` gives `base` with the new list. */
  lemma CommitCharacters(base: Mystery, d: Mystery, cs: seq<Character>)
    requires d == base.(characters := d.characters)
    ensures UpdateData(d, CastPatch(cs)) == base.(characters := cs)
  {
  }

  /** The concept commit of the Lucky run. */
  function LuckyConceptPatch(config: LuckyConfig, c: Concept): MysteryPatch {
    ConceptPatch(c).(theme := Some(config.theme), numGuests := Some(config.numGuests), clueTools := Some(config.clueTools))
  }

  /** The Lucky run's preconditions on the picks: `Math.floor(Math.random() * cast.length)`. */
  predicate PicksInRange(cast: Outcome<seq<CastEntry>>, killerPick: nat, saboteurPick: nat) {
    cast.Ok? && cast.value != [] ==> killerPick < |cast.value| && saboteurPick < |cast.value|
  }

  predicate CastReady(concept: Outcome<Concept>, cast: Outcome<seq<CastEntry>>) {
    concept.Ok? && cast.Ok? && cast.value != []
  }

  // ---------------------------------------------------------------------------------------
  // The store

  /**
   * The top-level state: the document, the current view, the Lucky run's current step, and
   * the two storage entries that the persistence effects keep in step with them.
   */
  class Store {
    var doc: Mystery
    var view: ViewState
    var generatingStep: Option<ViewState>
    var storedDoc: SavedBlob
    var storedView: Option<string>

    /** Restoring from storage at any moment gives back the current document and view. */
    ghost predicate Valid()
      reads this
    {
      InitialMystery(storedDoc) == doc && InitialView(storedView) == view
    }

    /** Startup: restore both entries, then the effects write the current values back. */
    constructor (blob: SavedBlob, savedView: Option<string>)
      ensures Valid()
      ensures doc == InitialMystery(blob) && view == InitialView(savedView) && generatingStep.None?
    {
      doc := InitialMystery(blob);
      view := InitialView(savedView);
      generatingStep := None;
      storedDoc := Saved(InitialMystery(blob));
      storedView := Some(ViewName(InitialView(savedView)));
    }

    /** `updateData`, followed by the effect that saves the document. */
    method Update(patch: MysteryPatch)
      requires Valid()
      modifies this
      ensures Valid()
      ensures doc == UpdateData(old(doc), patch)
      ensures view == old(view) && generatingStep == old(generatingStep)
    {
      doc := UpdateData(doc, patch);
      storedDoc := Saved(doc);
    }

    /** `setView`, followed by the effect that saves the view. */
    method SetView(v: ViewState)
      requires Valid()
      modifies this
      ensures Valid()
      ensures view == v && doc == old(doc) && generatingStep == old(generatingStep)
    {
      view := v;
      storedView := Some(ViewName(v));
    }

    /** "New mystery": only when confirmed, back to the default document and SETUP, both entries removed. */
    method NewMystery(confirmed: bool)
      requires Valid()
      modifies this
      ensures Valid() && generatingStep == old(generatingStep)
      ensures confirmed ==> doc == DefaultMystery() && view == SETUP && storedDoc == NoBlob && storedView.None?
      ensures !confirmed ==> doc == old(doc) && view == old(view) && storedDoc == old(storedDoc) && storedView == old(storedView)
    {
      if confirmed {
        doc := DefaultMystery();
        view := SETUP;
        storedDoc := NoBlob;
        storedView := None;
      }
    }

    /**
     * The dossier phase of `handleLuckyGeneration`: one request per character in cast order,
     * each reply committed as soon as it arrives; the first failure stops the phase.
     * `dossier(i)` is the reply for the i-th character.
     */
    method FleshInOrder(skeletons: seq<Character>, dossier: nat -> Outcome<Dossier>) returns (ok: bool)
      requires Valid() && doc.characters == skeletons
      modifies this
      ensures Valid() && view == old(view) && generatingStep == old(generatingStep)
      ensures ok <==> forall j :: 0 <= j < |skeletons| ==> dossier(j).Ok?
      ensures doc == old(doc).(characters := Progress(skeletons, dossier, Reached(dossier, |skeletons|)))
    {
      var base := doc;
      var full: seq<Character> := [];
      var i := 0;
      while i < |skeletons|
        invariant 0 <= i <= |skeletons| && |full| == i
        invariant forall j :: 0 <= j < i ==> dossier(j).Ok?
        invariant full == Written(skeletons, dossier, i)
        invariant doc == base.(characters := doc.characters)
        invariant doc.characters == full + skeletons[i..]
        invariant Valid() && view == old(view) && generatingStep == old(generatingStep)
      {
        if dossier(i).Err? {
          assert Reached(dossier, |skeletons|) == i;
          assert doc.characters == Progress(skeletons, dossier, i);
          return false;
        }
        WrittenNext(skeletons, dossier, i);
        full := full + [Fleshed(skeletons[i], dossier(i).value)];
        var next := full + skeletons[i + 1..];
        CommitCharacters(base, doc, next);
        Update(CastPatch(next));
        i := i + 1;
      }
      assert Reached(dossier, |skeletons|) == |skeletons|;
      assert doc.characters == Progress(skeletons, dossier, |skeletons|);
      ok := true;
    }

    /**
     * The second half of `handleLuckyGeneration`, once the cast is committed: timeline, clues,
     * then the dossiers, each phase committed before the next starts.
     */
    method LuckyRest(skeletons: seq<Character>, timeline: Outcome<string>, clues: Outcome<seq<Clue>>,
                     dossier: nat -> Outcome<Dossier>) returns (ok: bool)
      requires Valid() && doc.characters == skeletons
      modifies this
      ensures Valid() && view == old(view)
      ensures ok <==> timeline.Ok? && clues.Ok? && forall j :: 0 <= j < |skeletons| ==> dossier(j).Ok?
      ensures doc == old(doc).(characters := if timeline.Ok? && clues.Ok?
                                             then Progress(skeletons, dossier, Reached(dossier, |skeletons|))
                                             else skeletons,
                               timeline := if timeline.Ok? then timeline.value else old(doc).timeline,
                               clues := if timeline.Ok? && clues.Ok? then clues.value else old(doc).clues)
    {
      generatingStep := Some(PLANNING);
      if timeline.Err? {
        return false;
      }
      Update(NoChange.(timeline := Some(timeline.value)));

      generatingStep := Some(CLUES);
      if clues.Err? {
        return false;
      }
      Update(NoChange.(clues := Some(clues.value)));

      generatingStep := Some(DOSSIERS);
      ok := FleshInOrder(skeletons, dossier);
    }

    /**
     * `handleLuckyGeneration`: concept, cast with random roles, timeline, clues, then every
     * dossier in cast order, committing after each step; any failure stops the run with
     * everything committed so far kept. The oracles give each request's outcome, and the
     * picks are the two random indices into the cast.
     */
    method Lucky(config: LuckyConfig, concept: Outcome<Concept>, cast: Outcome<seq<CastEntry>>,
                 killerPick: nat, saboteurPick: nat, timeline: Outcome<string>, clues: Outcome<seq<Clue>>,
                 dossier: nat -> Outcome<Dossier>) returns (ok: bool)
      requires Valid() && generatingStep.None?
      requires PicksInRange(cast, killerPick, saboteurPick)
      modifies this
      ensures Valid() && generatingStep.None?
      ensures ok <==> CastReady(concept, cast) && timeline.Ok? && clues.Ok?
                      && forall j :: 0 <= j < |cast.value| ==> dossier(j).Ok?
      ensures ok ==> view == OUTPUT
      ensures !ok ==> view == old(view)
      ensures doc.beats == old(doc.beats) && doc.consistencyReport == old(doc.consistencyReport)
      ensures concept.Err? ==> doc == old(doc)
      ensures concept.Ok? ==> doc.title == concept.value.title && doc.coreStory == concept.value.incident
                              && doc.theme == config.theme && doc.numGuests == config.numGuests
      ensures concept.Ok? && !CastReady(concept, cast) ==> doc == UpdateData(old(doc), LuckyConceptPatch(config, concept.value))
      ensures CastReady(concept, cast) ==>
                var base := UpdateData(old(doc), LuckyConceptPatch(config, concept.value));
                var skeletons := Skeletons(cast.value);
                doc == base.(characters := if timeline.Ok? && clues.Ok?
                                           then Progress(skeletons, dossier, Reached(dossier, |skeletons|))
                                           else skeletons,
                             killerId := Some(cast.value[killerPick].id),
                             saboteurId := Some(cast.value[saboteurPick].id),
                             timeline := if timeline.Ok? then timeline.value else base.timeline,
                             clues := if timeline.Ok? && clues.Ok? then clues.value else base.clues)
    {
      generatingStep := Some(SETUP);
      if concept.Err? {
        generatingStep := None;
        return false;
      }
      Update(LuckyConceptPatch(config, concept.value));

      generatingStep := Some(CASTING);
      if cast.Err? || cast.value == [] {
        // an empty cast makes `cast[0].id` throw, which lands in the same catch
        generatingStep := None;
        return false;
      }
      var skeletons := Skeletons(cast.value);
      PreparedSkeletons(cast.value);
      Update(NoChange.(characters := Some(Prepared(skeletons)),
                       killerId := Some(Some(skeletons[killerPick].id)),
                       saboteurId := Some(Some(skeletons[saboteurPick].id))));

      ok := LuckyRest(skeletons, timeline, clues, dossier);
      generatingStep := None;
      if ok {
        SetView(OUTPUT);
      }
    }
  }
}
