/**
 * CharacterManager.tsx: the casting stage. Every handler computes a new character list and
 * commits it as a `{ characters }` update.
 */
module CharacterManager {
  import opened Types
  import opened Gateway
  import opened App
  import Seqs

  /** The casting request's inputs, read from the document. */
  datatype CastRequest = CastRequest(incident: string, parties: string, count: int)

  function CastRequestFor(d: Mystery): CastRequest {
    CastRequest(d.coreStory, d.generalParties, d.numGuests)
  }

  /** `handleGenerateCast`: the prepared skeletons on success, no update on failure. */
  function GenerateCastPatch(reply: Outcome<seq<CastEntry>>): (p: Option<MysteryPatch>)
    ensures p.Some? <==> reply.Ok?
    ensures p.Some? ==> Keys(p.value) == {Characters}
  {
    match reply
    case Ok(entries) => Some(CastPatch(Prepared(Skeletons(entries))))
    case Err(_) => None
  }

  /**
   * A regenerated cast is the reply's suspects, in order, each an unfleshed skeleton; the roles
   * and every other field are untouched, so the roles may now name no one.
   */
  lemma GenerateCastEffect(d: Mystery, entries: seq<CastEntry>)
    ensures var n := UpdateData(d, GenerateCastPatch(Ok(entries)).value);
      && |n.characters| == |entries|
      && (forall j :: 0 <= j < |entries| ==> SkeletonOf(n.characters[j], entries[j]))
      && n.killerId == d.killerId && n.saboteurId == d.saboteurId
      && SameOutside(d, n, {Characters})
  {
    PreparedSkeletons(entries);
    UpdateDataChangesOnlyKeys(d, GenerateCastPatch(Ok(entries)).value);
  }

  /** `updateChar`: merge the changes into every character with that id. */
  function UpdateChar(cs: seq<Character>, id: string, u: CharacterPatch): (r: seq<Character>)
    ensures |r| == |cs|
    ensures forall j :: 0 <= j < |cs| && cs[j].id != id ==> r[j] == cs[j]
    ensures forall j :: 0 <= j < |cs| && cs[j].id == id ==> r[j] == MergeCharacter(cs[j], u)
  {
    seq(|cs|, j requires 0 <= j < |cs| => if cs[j].id == id then MergeCharacter(cs[j], u) else cs[j])
  }

  /** An edit that does not change ids keeps every id in place, so ids stay unique. */
  lemma UpdateCharKeepsIds(cs: seq<Character>, id: string, u: CharacterPatch)
    requires u.id.None?
    ensures forall j :: 0 <= j < |cs| ==> UpdateChar(cs, id, u)[j].id == cs[j].id
    ensures UniqueIds(cs) ==> UniqueIds(UpdateChar(cs, id, u))
  {
  }

  function Flip(g: Gender): Gender {
    match g
    case Male => Female
    case Female => Male
  }

  /** `toggleGender`: no update for an unknown id; otherwise the first match's gender, flipped, for every match. */
  function ToggleGender(cs: seq<Character>, id: string): (r: Option<seq<Character>>)
    ensures r.None? <==> forall j :: 0 <= j < |cs| ==> cs[j].id != id
    ensures r.Some? ==> |r.value| == |cs| && forall j :: 0 <= j < |cs| && cs[j].id != id ==> r.value[j] == cs[j]
  {
    match FindById(cs, id)
    case None => None
    case Some(c) => Some(UpdateChar(cs, id, NoCharacterChange.(gender := Some(Flip(c.gender)))))
  }

  /** With unique ids, a toggle flips exactly the one matching character's gender and nothing else about it. */
  lemma ToggleGenderFlips(cs: seq<Character>, t: nat)
    requires t < |cs| && UniqueIds(cs)
    ensures ToggleGender(cs, cs[t].id) == Some(cs[t := cs[t].(gender := Flip(cs[t].gender))])
  {
    var id := cs[t].id;
    var r := FindById(cs, id);
    var i :| 0 <= i < |cs| && cs[i] == r.value && (forall j :: 0 <= j < i ==> cs[j].id != id);
    assert i == t;
    var u := NoCharacterChange.(gender := Some(Flip(cs[t].gender)));
    var flipped := UpdateChar(cs, id, u);
    forall j | 0 <= j < |cs|
      ensures flipped[j] == cs[t := cs[t].(gender := Flip(cs[t].gender))][j]
    {
      if j != t {
        assert cs[j].id != id;
      }
    }
    assert flipped == cs[t := cs[t].(gender := Flip(cs[t].gender))];
    assert ToggleGender(cs, id) == Some(flipped);
  }

  /** Flipping one slot keeps the ids unique, and flipping it again restores the list. */
  lemma FlipAtTwice(cs: seq<Character>, t: nat)
    requires t < |cs| && UniqueIds(cs)
    ensures var once := cs[t := cs[t].(gender := Flip(cs[t].gender))];
      UniqueIds(once) && once[t := once[t].(gender := Flip(once[t].gender))] == cs
  {
    var c := cs[t];
    var once := cs[t := c.(gender := Flip(c.gender))];
    assert forall j :: 0 <= j < |cs| ==> once[j].id == cs[j].id;
    assert once[t].(gender := Flip(once[t].gender)) == c by {
      assert Flip(Flip(c.gender)) == c.gender;
    }
    assert once[t := c] == cs;
  }

  /** Toggling the same suspect twice restores the list; toggling an unknown id changes nothing. */
  lemma ToggleGenderTwice(cs: seq<Character>, id: string)
    requires UniqueIds(cs)
    ensures ToggleGender(cs, id).None? ==> forall j :: 0 <= j < |cs| ==> cs[j].id != id
    ensures ToggleGender(cs, id).Some? ==> ToggleGender(ToggleGender(cs, id).value, id) == Some(cs)
  {
    if ToggleGender(cs, id).Some? {
      var t :| 0 <= t < |cs| && cs[t].id == id;
      ToggleGenderFlips(cs, t);
      FlipAtTwice(cs, t);
      ToggleGenderFlips(cs[t := cs[t].(gender := Flip(cs[t].gender))], t);
    }
  }

  /** `removeChar` */
  function RemoveChar(cs: seq<Character>, id: string): (r: seq<Character>)
    ensures forall j :: 0 <= j < |r| ==> r[j] in cs && r[j].id != id
    ensures forall j :: 0 <= j < |cs| && cs[j].id != id ==> cs[j] in r
  {
    Seqs.Without(cs, (c: Character) => c.id, id)
  }

  /**
   * Removing keeps the others in order (it distributes over a split of the list), drops exactly
   * one entry when the id is unique, and is a no-op for an unknown id.
   */
  lemma RemoveCharShape(a: seq<Character>, b: seq<Character>, id: string)
    ensures RemoveChar(a + b, id) == RemoveChar(a, id) + RemoveChar(b, id)
    ensures (forall j :: 0 <= j < |a| ==> a[j].id != id) ==> RemoveChar(a, id) == a
  {
    var key := (c: Character) => c.id;
    Seqs.WithoutAppend(a, b, key, id);
    if forall j :: 0 <= j < |a| ==> a[j].id != id {
      Seqs.WithoutAbsent(a, key, id);
    }
  }

  lemma RemoveCharCount(cs: seq<Character>, t: nat)
    requires t < |cs| && UniqueIds(cs)
    ensures |RemoveChar(cs, cs[t].id)| == |cs| - 1
  {
    var key := (c: Character) => c.id;
    Seqs.WithoutLength(cs, key, cs[t].id);
    Seqs.CountSingle(cs, key, t);
  }

  /** A removal commits only the list: a removed killer or saboteur id is left dangling. */
  lemma RemoveKeepsRoles(d: Mystery, id: string)
    ensures var n := UpdateData(d, CastPatch(RemoveChar(d.characters, id)));
      n.killerId == d.killerId && n.saboteurId == d.saboteurId && SameOutside(d, n, {Characters})
  {
    UpdateDataChangesOnlyKeys(d, CastPatch(RemoveChar(d.characters, id)));
  }

  const MaxSuspects: nat := 12

  /** The hand-added suspect; `id` stands for the random id. */
  function NewSuspect(id: string): (c: Character)
    ensures c.id == id && c.gender == Female && Unwritten(c)
  {
    Character(id, "New Suspect", Female, "The Outsider", "Unknown...", "", "", "", "", "", false, EmptyInfo, EmptyInfo)
  }

  /** "Add manual suspect": offered only for 0 < count < 12; appends one suspect at the end. */
  function AddSuspect(cs: seq<Character>, id: string): (r: Option<seq<Character>>)
    ensures r.Some? <==> 0 < |cs| < MaxSuspects
    ensures r.Some? ==> |r.value| == |cs| + 1 && r.value[..|cs|] == cs && r.value[|cs|] == NewSuspect(id)
  {
    if 0 < |cs| < MaxSuspects then Some(cs + [NewSuspect(id)]) else None
  }

  /** Adding can never take the list past twelve, and a fresh id keeps ids unique. */
  lemma AddSuspectKeepsInvariants(cs: seq<Character>, id: string)
    requires AddSuspect(cs, id).Some?
    ensures |AddSuspect(cs, id).value| <= MaxSuspects
    ensures UniqueIds(cs) && (forall j :: 0 <= j < |cs| ==> cs[j].id != id) ==> UniqueIds(AddSuspect(cs, id).value)
  {
  }

  /** "Next" is enabled iff there is at least one suspect. */
  predicate CanProceed(d: Mystery) {
    |d.characters| != 0
  }

  /** A successful non-empty casting enables "next", and adding a suspect never disables it. */
  lemma CanProceedAfterCasting(d: Mystery, entries: seq<CastEntry>, id: string)
    ensures entries != [] ==> CanProceed(UpdateData(d, GenerateCastPatch(Ok(entries)).value))
    ensures AddSuspect(d.characters, id).Some? ==> CanProceed(UpdateData(d, CastPatch(AddSuspect(d.characters, id).value)))
  {
  }
}
