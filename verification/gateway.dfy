/**
 * The deterministic part of services/geminiService.ts: the retry policy wrapped around every
 * backend request, and the post-processing applied to what the backend returns. The backend
 * itself is an oracle: each request yields an `Outcome`.
 */
module Gateway {
  import opened Types
  import Seqs

  /** What one backend request yields: a value, or an error carrying the HTTP status it reported, if any. */
  datatype Outcome<+T> = Ok(value: T) | Err(status: Option<int>)

  const MaxRetries: nat := 3
  const InitialDelayMs: nat := 2000

  /** `error?.status === 429 || error?.status >= 500`; an error without a status is not retried. */
  predicate Retryable(status: Option<int>) {
    status.Some? && (status.value == 429 || status.value >= 500)
  }

  /** The final outcome of a retried request, and the waits performed before it, in order. */
  datatype RetryRun<T> = RetryRun(result: Outcome<T>, delays: seq<nat>)

  /**
   * `generateWithRetry(operation, retries, delayMs)`, where `attempt(k)` is what the k-th
   * invocation of `operation` yields.
   */
  function Retry<T>(attempt: nat -> Outcome<T>, k: nat, retries: nat, delayMs: nat): RetryRun<T>
    decreases retries
  {
    match attempt(k)
    case Ok(_) => RetryRun(attempt(k), [])
    case Err(s) =>
      if retries > 0 && Retryable(s) then
        var rest := Retry(attempt, k + 1, retries - 1, delayMs * 2);
        RetryRun(rest.result, [delayMs] + rest.delays)
      else
        RetryRun(attempt(k), [])
  }

  function Pow2(n: nat): nat {
    if n == 0 then 1 else 2 * Pow2(n - 1)
  }

  /** Doubling the first delay is doubling every later one. */
  lemma Doubling(a: nat, p: nat)
    ensures (a * 2) * p == a * (2 * p)
  {
  }

  /** One step of the wrapper: retry with a doubled delay, or stop with this attempt's outcome. */
  lemma RetryUnfold<T>(attempt: nat -> Outcome<T>, k: nat, retries: nat, delayMs: nat)
    ensures attempt(k).Err? && retries > 0 && Retryable(attempt(k).status) ==>
      var rest := Retry(attempt, k + 1, retries - 1, delayMs * 2);
      Retry(attempt, k, retries, delayMs) == RetryRun(rest.result, [delayMs] + rest.delays)
    ensures !(attempt(k).Err? && retries > 0 && Retryable(attempt(k).status)) ==>
      Retry(attempt, k, retries, delayMs) == RetryRun(attempt(k), [])
  {
  }

  /** The loop form of the retry wrapper, with the default budget of 3 retries from 2000 ms. */
  method GenerateWithRetry<T>(attempt: nat -> Outcome<T>) returns (result: Outcome<T>, delays: seq<nat>)
    ensures RetryRun(result, delays) == Retry(attempt, 0, MaxRetries, InitialDelayMs)
    ensures |delays| <= MaxRetries
  {
    var retries, delayMs, k := MaxRetries, InitialDelayMs, 0;
    delays := [];
    result := attempt(0);
    while result.Err? && retries > 0 && Retryable(result.status)
      invariant k + retries == MaxRetries && |delays| == k
      invariant result == attempt(k)
      invariant Retry(attempt, 0, MaxRetries, InitialDelayMs).result == Retry(attempt, k, retries, delayMs).result
      invariant Retry(attempt, 0, MaxRetries, InitialDelayMs).delays == delays + Retry(attempt, k, retries, delayMs).delays
    {
      RetryUnfold(attempt, k, retries, delayMs);
      ghost var rest := Retry(attempt, k + 1, retries - 1, delayMs * 2);
      assert delays + ([delayMs] + rest.delays) == (delays + [delayMs]) + rest.delays;
      delays := delays + [delayMs];
      retries, delayMs, k := retries - 1, delayMs * 2, k + 1;
      result := attempt(k);
    }
    RetryUnfold(attempt, k, retries, delayMs);
  }

  /**
   * Everything about a retried request: at most `retries` waits, doubling from `delayMs`;
   * every attempt before the last failed with a retryable status; the result is the last
   * attempt's outcome, unchanged; and it stopped because that attempt succeeded, failed
   * with a status that is not retried, or the budget ran out.
   */
  lemma {:induction false} RetryShape<T>(attempt: nat -> Outcome<T>, k: nat, retries: nat, delayMs: nat)
    ensures var r := Retry(attempt, k, retries, delayMs);
      && |r.delays| <= retries
      && r.result == attempt(k + |r.delays|)
      && (forall j :: 0 <= j < |r.delays| ==> r.delays[j] == delayMs * Pow2(j))
      && (forall j :: k <= j < k + |r.delays| ==> attempt(j).Err? && Retryable(attempt(j).status))
      && (r.result.Ok? || !Retryable(r.result.status) || |r.delays| == retries)
    decreases retries
  {
    var r := Retry(attempt, k, retries, delayMs);
    if attempt(k).Err? && retries > 0 && Retryable(attempt(k).status) {
      var rest := Retry(attempt, k + 1, retries - 1, delayMs * 2);
      RetryShape(attempt, k + 1, retries - 1, delayMs * 2);
      assert r.delays == [delayMs] + rest.delays;
      forall j | 0 <= j < |r.delays|
        ensures r.delays[j] == delayMs * Pow2(j)
      {
        if j > 0 {
          assert r.delays[j] == (delayMs * 2) * Pow2(j - 1);
          Doubling(delayMs, Pow2(j - 1));
        }
      }
    }
  }

  /**
   * The default policy: at most 3 retries, waiting 2000, 4000 and 8000 ms in that order; a
   * success on any attempt is returned unchanged and a final error is rethrown unchanged.
   */
  lemma GatewayPolicy<T>(attempt: nat -> Outcome<T>)
    ensures var r := Retry(attempt, 0, MaxRetries, InitialDelayMs);
      && |r.delays| <= 3
      && r.delays == [2000, 4000, 8000][..|r.delays|]
      && r.result == attempt(|r.delays|)
      && (forall j :: 0 <= j < |r.delays| ==> attempt(j).Err? && Retryable(attempt(j).status))
      && (r.result.Err? && |r.delays| < 3 ==> !Retryable(r.result.status))
  {
    var r := Retry(attempt, 0, MaxRetries, InitialDelayMs);
    RetryShape(attempt, 0, MaxRetries, InitialDelayMs);
    assert Pow2(0) == 1 && Pow2(1) == 2 && Pow2(2) == 4;
    assert |r.delays| > 0 ==> r.delays[0] == 2000;
    assert |r.delays| > 1 ==> r.delays[1] == 4000;
    assert |r.delays| > 2 ==> r.delays[2] == 8000;
  }

  /** Two retryable failures and then a success: that success, after exactly two waits of 2000 and 4000 ms. */
  lemma TwoRetryableFailuresThenSuccess<T>(attempt: nat -> Outcome<T>, v: T)
    requires attempt(0).Err? && Retryable(attempt(0).status)
    requires attempt(1).Err? && Retryable(attempt(1).status)
    requires attempt(2) == Ok(v)
    ensures Retry(attempt, 0, MaxRetries, InitialDelayMs) == RetryRun(Ok(v), [2000, 4000])
  {
    assert Retry(attempt, 2, 1, 8000) == RetryRun(Ok(v), []);
    assert Retry(attempt, 1, 2, 4000) == RetryRun(Ok(v), [4000]);
  }

  /** A failure whose status is not retried is rethrown at once, with no wait. */
  lemma NonRetryableFailsFast<T>(attempt: nat -> Outcome<T>)
    requires attempt(0).Err? && !Retryable(attempt(0).status)
    ensures Retry(attempt, 0, MaxRetries, InitialDelayMs) == RetryRun(attempt(0), [])
  {
  }

  // ---------------------------------------------------------------------------------------
  // Backend reply shapes and their post-processing

  /** One suspect as the casting request returns it (the response schema's five fields). */
  datatype CastEntry = CastEntry(id: string, name: string, gender: Gender, archetype: string, initialMotive: string)

  /** A character whose dossier has not been written: narrative empty, both rounds empty, not fleshed. */
  predicate Unwritten(c: Character) {
    && c.preGameBlurb == "" && c.background == "" && c.relationships == ""
    && c.secrets == "" && c.connectionToVictim == ""
    && !c.isFleshed && c.round1 == EmptyInfo && c.round2 == EmptyInfo
  }

  predicate SkeletonOf(c: Character, e: CastEntry) {
    && c.id == e.id && c.name == e.name && c.gender == e.gender
    && c.archetype == e.archetype && c.initialMotive == e.initialMotive
    && Unwritten(c)
  }

  /** The map applied to the casting reply. */
  function Skeletons(entries: seq<CastEntry>): (cast: seq<Character>)
    ensures |cast| == |entries|
    ensures forall i :: 0 <= i < |cast| ==> SkeletonOf(cast[i], entries[i])
  {
    seq(|entries|, i requires 0 <= i < |entries| =>
      var e := entries[i];
      Character(e.id, e.name, e.gender, e.archetype, e.initialMotive, "", "", "", "", "", false, EmptyInfo, EmptyInfo))
  }

  /** The casting fields of a character, the inverse of the skeleton map. */
  function EntryOf(c: Character): CastEntry {
    CastEntry(c.id, c.name, c.gender, c.archetype, c.initialMotive)
  }

  /** Nothing the backend returned is lost: reading the casting fields back gives the reply. */
  lemma SkeletonsKeepEntries(entries: seq<CastEntry>)
    ensures seq(|entries|, i requires 0 <= i < |entries| => EntryOf(Skeletons(entries)[i])) == entries
  {
    var cast := Skeletons(entries);
    forall i | 0 <= i < |entries|
      ensures EntryOf(cast[i]) == entries[i]
    {
      assert SkeletonOf(cast[i], entries[i]);
    }
  }

  /** The dossier reply: its schema lists six properties and requires none of them. */
  datatype Dossier = Dossier(
    preGameBlurb: Option<string>,
    background: Option<string>,
    relationships: Option<string>,
    connectionToVictim: Option<string>,
    round1: Option<CharacterInfo>,
    round2: Option<CharacterInfo>)

  function DossierPatch(d: Dossier): CharacterPatch {
    NoCharacterChange.(
      preGameBlurb := d.preGameBlurb, background := d.background, relationships := d.relationships,
      connectionToVictim := d.connectionToVictim, round1 := d.round1, round2 := d.round2)
  }

  /** `{ ...character, ...result }`: the reply overrides only the fields it carries. */
  function WithDossier(c: Character, d: Dossier): (r: Character)
    ensures r.id == c.id && r.name == c.name && r.gender == c.gender
    ensures r.archetype == c.archetype && r.initialMotive == c.initialMotive
    ensures r.secrets == c.secrets && r.isFleshed == c.isFleshed
    ensures r.preGameBlurb == d.preGameBlurb.GetOr(c.preGameBlurb) && r.background == d.background.GetOr(c.background)
    ensures r.relationships == d.relationships.GetOr(c.relationships)
    ensures r.connectionToVictim == d.connectionToVictim.GetOr(c.connectionToVictim)
    ensures r.round1 == d.round1.GetOr(c.round1) && r.round2 == d.round2.GetOr(c.round2)
    ensures d == Dossier(None, None, None, None, None, None) ==> r == c
  {
    MergeCharacter(c, DossierPatch(d))
  }

  /** Applying the same reply again changes nothing more. */
  lemma WithDossierIdempotent(c: Character, d: Dossier)
    ensures WithDossier(WithDossier(c, d), d) == WithDossier(c, d)
  {
  }

  /** What a dossier request carries besides the prompt text. */
  datatype DossierRequest = DossierRequest(
    character: Character,
    isKiller: bool,
    isSaboteur: bool,
    incident: string,
    timeline: string,
    twist: string,
    allSuspects: seq<Character>)

  /** `.map(c => c.name)` */
  function Names(cs: seq<Character>): seq<string> {
    seq(|cs|, i requires 0 <= i < |cs| => cs[i].name)
  }

  /** Taking names distributes over concatenation. */
  lemma NamesAppend(x: seq<Character>, y: seq<Character>)
    ensures Names(x + y) == Names(x) + Names(y)
  {
    assert forall i :: 0 <= i < |x + y| ==> Names(x + y)[i] == (Names(x) + Names(y))[i];
  }

  /** The other-guests list of the dossier prompt: the names of every other cast member, in cast order. */
  function OtherGuests(cast: seq<Character>, c: Character): (names: seq<string>)
    ensures |names| <= |cast|
    ensures forall i :: 0 <= i < |cast| && cast[i].id != c.id ==> cast[i].name in names
    ensures forall n :: n in names ==> exists i :: 0 <= i < |cast| && cast[i].id != c.id && cast[i].name == n
  {
    var others := Seqs.Without(cast, (g: Character) => g.id, c.id);
    var names := Names(others);
    assert forall i :: 0 <= i < |cast| && cast[i].id != c.id ==> cast[i].name in names by {
      forall i | 0 <= i < |cast| && cast[i].id != c.id
        ensures cast[i].name in names
      {
        var m :| 0 <= m < |others| && others[m] == cast[i];
        assert names[m] == cast[i].name;
      }
    }
    names
  }

  /** In a cast with unique ids, a member sees every other member exactly once. */
  lemma OtherGuestsCount(cast: seq<Character>, t: nat)
    requires t < |cast| && UniqueIds(cast)
    ensures |OtherGuests(cast, cast[t])| == |cast| - 1
  {
    var key := (g: Character) => g.id;
    Seqs.WithoutLength(cast, key, cast[t].id);
    Seqs.CountSingle(cast, key, t);
  }

  /**
   * The list follows cast order: it distributes over a split of the cast, and a single member
   * contributes its name exactly when it is not the character the dossier is for.
   */
  lemma OtherGuestsInOrder(a: seq<Character>, b: seq<Character>, c: Character, g: Character)
    ensures OtherGuests(a + b, c) == OtherGuests(a, c) + OtherGuests(b, c)
    ensures OtherGuests([g], c) == (if g.id != c.id then [g.name] else [])
  {
    var key := (x: Character) => x.id;
    Seqs.WithoutAppend(a, b, key, c.id);
    NamesAppend(Seqs.Without(a, key, c.id), Seqs.Without(b, key, c.id));
    assert Seqs.Without([g], key, c.id) == (if g.id != c.id then [g] else []) by {
      assert [g][1..] == [];
    }
  }

  /** One suspect's entry in the audit digest. */
  datatype DigestEntry = DigestEntry(name: string, publicInfo: seq<string>, privateInfo: seq<string>)

  /** The dossier summary sent to the audit: one entry per character, in cast order, with its round-1 lists. */
  function AuditDigest(m: Mystery): (digest: seq<DigestEntry>)
    ensures |digest| == |m.characters|
    ensures forall i :: 0 <= i < |digest| ==>
      digest[i].name == m.characters[i].name && digest[i].publicInfo == m.characters[i].round1.publicInfo
      && digest[i].privateInfo == m.characters[i].round1.privateInfo
  {
    seq(|m.characters|, i requires 0 <= i < |m.characters| =>
      var c := m.characters[i]; DigestEntry(c.name, c.round1.publicInfo, c.round1.privateInfo))
  }

  /** The first character with the given id (`Array.prototype.find`). */
  function FindById(cs: seq<Character>, id: string): (r: Option<Character>)
    ensures r.None? <==> forall i :: 0 <= i < |cs| ==> cs[i].id != id
    ensures r.Some? ==> r.value.id == id
    ensures r.Some? ==> exists i :: 0 <= i < |cs| && cs[i] == r.value && (forall j :: 0 <= j < i ==> cs[j].id != id)
  {
    if cs == [] then None
    else if cs[0].id == id then Some(cs[0])
    else
      var r := FindById(cs[1..], id);
      assert r.Some? ==> exists i :: 1 <= i < |cs| && cs[i] == r.value && forall j :: 0 <= j < i ==> cs[j].id != id by {
        if r.Some? {
          var i :| 0 <= i < |cs[1..]| && cs[1..][i] == r.value && (forall j :: 0 <= j < i ==> cs[1..][j].id != id);
          assert cs[i + 1] == r.value;
          assert forall j :: 0 <= j < i + 1 ==> cs[j].id != id by {
            forall j | 0 <= j < i + 1 ensures cs[j].id != id {
              if j > 0 { assert cs[j] == cs[1..][j - 1]; }
            }
          }
        }
      }
      r
  }

  // Reply shapes of the remaining requests

  /** The concept reply (`generateStoryConcept`, `refineStoryConcept`). */
  datatype Concept = Concept(title: string, victim: string, atmosphere: string, incident: string, parties: string, twist: string)

  /** One issue as the audit reply lists it: the schema has no `fixed` property. */
  datatype AuditFinding = AuditFinding(id: string, description: string, suggestion: string)

  datatype AuditReply = AuditReply(isValid: bool, issues: seq<AuditFinding>, notes: string)

  /** The audit reply as stored: an absent `fixed` reads as false, so every issue starts unfixed. */
  function ReportOf(reply: AuditReply): (r: ConsistencyReport)
    ensures r.isValid == reply.isValid && r.notes == reply.notes && |r.issues| == |reply.issues|
    ensures forall i :: 0 <= i < |r.issues| ==> !r.issues[i].fixed && r.issues[i].id == reply.issues[i].id
    ensures forall i :: 0 <= i < |r.issues| ==>
      r.issues[i].description == reply.issues[i].description && r.issues[i].suggestion == reply.issues[i].suggestion
  {
    ConsistencyReport(reply.isValid,
      seq(|reply.issues|, i requires 0 <= i < |reply.issues| =>
        var f := reply.issues[i]; ConsistencyIssue(f.id, f.description, f.suggestion, false)),
      reply.notes)
  }

  /** The issue-resolver reply. */
  datatype FixReply = FixReply(timeline: string, summary: string)
}
