/**
 * DossierManager.tsx: writing one dossier, writing every missing dossier in turn, the two busy
 * flags that keep at most one generation in flight, and the gate to the audit stage.
 */
module DossierManager {
  import opened Types
  import opened Gateway
  import opened App

  /** The request for one character, built from the document as the handler saw it. */
  function RequestFor(d: Mystery, c: Character): (q: DossierRequest)
    ensures q.character == c && q.allSuspects == d.characters
    ensures q.isKiller <==> d.killerId == Some(c.id)
    ensures q.isSaboteur <==> d.saboteurId == Some(c.id)
    ensures q.incident == d.coreStory && q.timeline == d.timeline && q.twist == d.twist
  {
    DossierRequest(c, d.killerId == Some(c.id), d.saboteurId == Some(c.id), d.coreStory, d.timeline, d.twist, d.characters)
  }

  /** The list committed by `handleFleshDossier`: every entry with the character's id becomes its fleshed dossier. */
  function FleshOne(cs: seq<Character>, c: Character, x: Dossier): (r: seq<Character>)
    ensures |r| == |cs|
    ensures forall j :: 0 <= j < |cs| && cs[j].id != c.id ==> r[j] == cs[j]
    ensures forall j :: 0 <= j < |cs| && cs[j].id == c.id ==> r[j] == Fleshed(c, x)
  {
    seq(|cs|, j requires 0 <= j < |cs| => if cs[j].id == c.id then Fleshed(c, x) else cs[j])
  }

  /**
   * With unique ids, fleshing one listed character replaces exactly its slot: ids stay unique,
   * and if it was the last unfleshed one the whole cast is now fleshed.
   */
  lemma FleshOneAt(cs: seq<Character>, t: nat, x: Dossier)
    requires t < |cs| && UniqueIds(cs)
    ensures FleshOne(cs, cs[t], x) == cs[t := Fleshed(cs[t], x)]
    ensures UniqueIds(FleshOne(cs, cs[t], x))
    ensures (forall j :: 0 <= j < |cs| && j != t ==> cs[j].isFleshed) ==> AllFleshed(FleshOne(cs, cs[t], x))
  {
    var r := FleshOne(cs, cs[t], x);
    forall j | 0 <= j < |cs|
      ensures r[j] == cs[t := Fleshed(cs[t], x)][j]
    {
      if j != t {
        assert cs[j].id != cs[t].id;
      }
    }
  }

  // ---------------------------------------------------------------------------------------
  // Flesh all

  /** A batch run: the working copy when it stopped, the requests made in order, and whether it finished. */
  datatype BatchRun = BatchRun(chars: seq<Character>, requests: seq<DossierRequest>, ok: bool)

  /**
   * The batch from slot `i` of the working copy `cs` on, `calls` requests having been made;
   * `reply(k)` answers the k-th request. Fleshed slots are skipped; a failure stops the run.
   */
  function FleshFrom(d: Mystery, cs: seq<Character>, reply: nat -> Outcome<Dossier>, i: nat, calls: nat): BatchRun
    decreases |cs| - i
  {
    if i >= |cs| then BatchRun(cs, [], true)
    else if cs[i].isFleshed then FleshFrom(d, cs, reply, i + 1, calls)
    else
      var q := RequestFor(d, cs[i]);
      match reply(calls)
      case Err(_) => BatchRun(cs, [q], false)
      case Ok(x) =>
        var rest := FleshFrom(d, cs[i := Fleshed(cs[i], x)], reply, i + 1, calls + 1);
        BatchRun(rest.chars, [q] + rest.requests, rest.ok)
  }

  /** One step of a batch: skip a fleshed slot, stop on a failure, or write the slot and go on. */
  lemma FleshFromUnfold(d: Mystery, cs: seq<Character>, reply: nat -> Outcome<Dossier>, i: nat, calls: nat)
    requires i < |cs|
    ensures cs[i].isFleshed ==> FleshFrom(d, cs, reply, i, calls) == FleshFrom(d, cs, reply, i + 1, calls)
    ensures !cs[i].isFleshed && reply(calls).Err? ==>
      FleshFrom(d, cs, reply, i, calls) == BatchRun(cs, [RequestFor(d, cs[i])], false)
    ensures !cs[i].isFleshed && reply(calls).Ok? ==>
      var rest := FleshFrom(d, cs[i := Fleshed(cs[i], reply(calls).value)], reply, i + 1, calls + 1);
      FleshFrom(d, cs, reply, i, calls) == BatchRun(rest.chars, [RequestFor(d, cs[i])] + rest.requests, rest.ok)
  {
  }

  /** Writing slot `i` moves the batch one slot on: what is left of it still ends as before. */
  lemma FleshFromWriteStep(d: Mystery, cs: seq<Character>, reply: nat -> Outcome<Dossier>, i: nat, calls: nat,
                           done: seq<DossierRequest>, run: BatchRun)
    requires i < |cs| && !cs[i].isFleshed && reply(calls).Ok?
    requires FleshFrom(d, cs, reply, i, calls).chars == run.chars
    requires done + FleshFrom(d, cs, reply, i, calls).requests == run.requests
    ensures var rest := FleshFrom(d, cs[i := Fleshed(cs[i], reply(calls).value)], reply, i + 1, calls + 1);
      rest.chars == run.chars && (done + [RequestFor(d, cs[i])]) + rest.requests == run.requests
  {
    FleshFromUnfold(d, cs, reply, i, calls);
    var rest := FleshFrom(d, cs[i := Fleshed(cs[i], reply(calls).value)], reply, i + 1, calls + 1);
    assert done + ([RequestFor(d, cs[i])] + rest.requests) == (done + [RequestFor(d, cs[i])]) + rest.requests;
  }

  /** `handleFleshAll` on the document `d`. */
  function FleshAllRun(d: Mystery, reply: nat -> Outcome<Dossier>): BatchRun {
    FleshFrom(d, d.characters, reply, 0, 0)
  }

  /**
   * A batch keeps length, ids and order; every slot is either untouched or now fleshed; and a
   * finished run leaves every slot from `i` on fleshed.
   */
  lemma {:induction false} FleshFromShape(d: Mystery, cs: seq<Character>, reply: nat -> Outcome<Dossier>, i: nat, calls: nat)
    requires i <= |cs|
    ensures var r := FleshFrom(d, cs, reply, i, calls);
      && |r.chars| == |cs|
      && (forall j :: 0 <= j < |cs| ==> r.chars[j].id == cs[j].id)
      && (forall j :: 0 <= j < |cs| ==> r.chars[j] == cs[j] || r.chars[j].isFleshed)
      && (r.ok ==> forall j :: i <= j < |cs| ==> r.chars[j].isFleshed)
    decreases |cs| - i
  {
    if i >= |cs| {
    } else if cs[i].isFleshed {
      FleshFromShape(d, cs, reply, i + 1, calls);
    } else {
      match reply(calls)
      case Err(_) =>
      case Ok(x) =>
        FleshFromShape(d, cs[i := Fleshed(cs[i], x)], reply, i + 1, calls + 1);
    }
  }

  /** A batch leaves the slots before `i`, and every slot that was already fleshed, as they were. */
  lemma {:induction false} FleshFromKeeps(d: Mystery, cs: seq<Character>, reply: nat -> Outcome<Dossier>, i: nat, calls: nat)
    requires i <= |cs|
    ensures var r := FleshFrom(d, cs, reply, i, calls);
      |r.chars| == |cs| && forall j :: 0 <= j < |cs| && (j < i || cs[j].isFleshed) ==> r.chars[j] == cs[j]
    decreases |cs| - i
  {
    if i >= |cs| {
    } else if cs[i].isFleshed {
      FleshFromKeeps(d, cs, reply, i + 1, calls);
    } else {
      match reply(calls)
      case Err(_) =>
      case Ok(x) =>
        var next := cs[i := Fleshed(cs[i], x)];
        FleshFromKeeps(d, next, reply, i + 1, calls + 1);
        FleshFromUnfold(d, cs, reply, i, calls);
        KeptAfterWrite(cs, next, FleshFrom(d, next, reply, i + 1, calls + 1).chars, i);
    }
  }

  /** What the rest of a batch keeps of the copy with slot `i` written, it keeps of the copy before. */
  lemma KeptAfterWrite(cs: seq<Character>, next: seq<Character>, chars: seq<Character>, i: nat)
    requires i < |cs| == |next| == |chars| && !cs[i].isFleshed
    requires forall j :: 0 <= j < |cs| && j != i ==> next[j] == cs[j]
    requires forall j :: 0 <= j < |next| && (j < i + 1 || next[j].isFleshed) ==> chars[j] == next[j]
    ensures forall j :: 0 <= j < |cs| && (j < i || cs[j].isFleshed) ==> chars[j] == cs[j]
  {
    forall j | 0 <= j < |cs| && (j < i || cs[j].isFleshed)
      ensures chars[j] == cs[j]
    {
      assert j != i && next[j] == cs[j];
    }
  }

  /** A batch asks at most once per remaining slot, and only for characters not yet fleshed. */
  lemma {:induction false} FleshFromRequests(d: Mystery, cs: seq<Character>, reply: nat -> Outcome<Dossier>, i: nat, calls: nat)
    requires i <= |cs|
    ensures var r := FleshFrom(d, cs, reply, i, calls);
      && |r.requests| <= |cs| - i
      && (forall k :: 0 <= k < |r.requests| ==> !r.requests[k].character.isFleshed)
    decreases |cs| - i
  {
    if i >= |cs| {
      return;
    }
    FleshFromUnfold(d, cs, reply, i, calls);
    if cs[i].isFleshed {
      FleshFromRequests(d, cs, reply, i + 1, calls);
    } else {
      match reply(calls)
      case Err(_) =>
      case Ok(x) =>
        var rest := FleshFrom(d, cs[i := Fleshed(cs[i], x)], reply, i + 1, calls + 1);
        FleshFromRequests(d, cs[i := Fleshed(cs[i], x)], reply, i + 1, calls + 1);
        RequestsAfterWrite(RequestFor(d, cs[i]), rest.requests, |cs| - i);
    }
  }

  /** A request for an unfleshed character ahead of a batch that met the bound for one slot fewer. */
  lemma RequestsAfterWrite(q: DossierRequest, rest: seq<DossierRequest>, n: nat)
    requires !q.character.isFleshed && |rest| + 1 <= n
    requires forall k :: 0 <= k < |rest| ==> !rest[k].character.isFleshed
    ensures |[q] + rest| <= n && forall k :: 0 <= k < |[q] + rest| ==> !([q] + rest)[k].character.isFleshed
  {
    forall k | 0 <= k < |[q] + rest|
      ensures !([q] + rest)[k].character.isFleshed
    {
      if k > 0 { assert ([q] + rest)[k] == rest[k - 1]; }
    }
  }

  /** With nothing left to write, a batch makes no request and changes nothing. */
  lemma {:induction false} FleshFromNothingToDo(d: Mystery, cs: seq<Character>, reply: nat -> Outcome<Dossier>, i: nat, calls: nat)
    requires forall j :: i <= j < |cs| ==> cs[j].isFleshed
    ensures FleshFrom(d, cs, reply, i, calls) == BatchRun(cs, [], true)
    decreases |cs| - i
  {
    if i < |cs| {
      FleshFromNothingToDo(d, cs, reply, i + 1, calls);
    }
  }

  /** How many requests a batch makes for slots `i` up to `k`: one per slot not yet fleshed. */
  function Pending(cs: seq<Character>, i: nat, k: nat): (n: nat)
    requires i <= k <= |cs|
    ensures n <= k - i
    decreases k - i
  {
    if i == k then 0 else (if cs[i].isFleshed then 0 else 1) + Pending(cs, i + 1, k)
  }

  /** The request count only depends on which slots are fleshed. */
  lemma {:induction false} PendingFrame(a: seq<Character>, b: seq<Character>, i: nat, k: nat)
    requires i <= k <= |a| && k <= |b|
    requires forall j :: i <= j < k ==> a[j].isFleshed == b[j].isFleshed
    ensures Pending(a, i, k) == Pending(b, i, k)
    decreases k - i
  {
    if i < k {
      PendingFrame(a, b, i + 1, k);
    }
  }

  /**
   * A batch from slot `i` that ended with the working copy `chars` and the flag `ok` stopped
   * at slot `k`, where `write(c, x)` is what slot `c` becomes with the dossier `x`: it finished
   * iff `k` is the end; otherwise slot `k` was unfleshed and its request failed. Every
   * unfleshed slot before `k` holds what its own reply wrote, every fleshed one is as it was,
   * and from `k` on nothing changed.
   */
  predicate StoppedAt(cs: seq<Character>, reply: nat -> Outcome<Dossier>, write: (Character, Dossier) -> Character,
                      i: nat, calls: nat, chars: seq<Character>, ok: bool, k: nat)
    requires i <= k <= |cs|
  {
    && |chars| == |cs|
    && (ok <==> k == |cs|)
    && (k < |cs| ==> !cs[k].isFleshed && reply(calls + Pending(cs, i, k)).Err?)
    && (forall j {:trigger chars[j]} :: i <= j < k && cs[j].isFleshed ==> chars[j] == cs[j])
    && (forall j {:trigger chars[j]} {:trigger Pending(cs, i, j)} :: i <= j < k && !cs[j].isFleshed ==>
          reply(calls + Pending(cs, i, j)).Ok? && chars[j] == write(cs[j], reply(calls + Pending(cs, i, j)).value))
    && (forall j {:trigger chars[j]} :: k <= j < |cs| ==> chars[j] == cs[j])
  }

  /** The batch from slot `i` stopped somewhere. */
  predicate Stops(cs: seq<Character>, reply: nat -> Outcome<Dossier>, write: (Character, Dossier) -> Character,
                  i: nat, calls: nat, chars: seq<Character>, ok: bool)
    requires i <= |cs|
  {
    exists k :: i <= k <= |cs| && StoppedAt(cs, reply, write, i, calls, chars, ok, k)
  }

  /** A batch that skips a fleshed slot `i` stops where the batch from `i + 1` stops. */
  lemma StoppedAfterSkip(cs: seq<Character>, reply: nat -> Outcome<Dossier>, write: (Character, Dossier) -> Character,
                         i: nat, calls: nat, chars: seq<Character>, ok: bool, k: nat)
    requires i < k <= |cs| && cs[i].isFleshed
    requires StoppedAt(cs, reply, write, i + 1, calls, chars, ok, k)
    requires chars[i] == cs[i]
    ensures StoppedAt(cs, reply, write, i, calls, chars, ok, k)
  {
    if k < |cs| {
      assert Pending(cs, i + 1, k) == Pending(cs, i, k);
    }
    forall j | i <= j < k && !cs[j].isFleshed
      ensures reply(calls + Pending(cs, i, j)).Ok? && chars[j] == write(cs[j], reply(calls + Pending(cs, i, j)).value)
    {
      assert Pending(cs, i + 1, j) == Pending(cs, i, j);
    }
  }

  /** Writing slot `i` adds one request before every later slot, so a later slot's reply is the same one. */
  lemma ReplyAfterWrite(cs: seq<Character>, next: seq<Character>, reply: nat -> Outcome<Dossier>, i: nat, calls: nat, j: nat)
    requires i < j <= |cs| == |next| && !cs[i].isFleshed
    requires forall t :: i < t < |cs| ==> next[t] == cs[t]
    ensures reply(calls + Pending(cs, i, j)) == reply(calls + 1 + Pending(next, i + 1, j))
  {
    PendingFrame(next, cs, i + 1, j);
  }

  /** A later slot the rest of the batch wrote holds the dossier of the same reply, counted from slot `i`. */
  lemma WrittenSlotAfterWrite(cs: seq<Character>, next: seq<Character>, reply: nat -> Outcome<Dossier>, write: (Character, Dossier) -> Character,
                              i: nat, calls: nat, chars: seq<Character>, j: nat)
    requires i < j < |cs| == |next| == |chars| && !cs[i].isFleshed
    requires forall t :: i < t < |cs| ==> next[t] == cs[t]
    requires reply(calls + 1 + Pending(next, i + 1, j)).Ok?
    requires chars[j] == write(next[j], reply(calls + 1 + Pending(next, i + 1, j)).value)
    ensures reply(calls + Pending(cs, i, j)).Ok? && chars[j] == write(cs[j], reply(calls + Pending(cs, i, j)).value)
  {
    assert next[j] == cs[j];
    ReplyAfterWrite(cs, next, reply, i, calls, j);
  }

  /** A batch that writes slot `i` from `reply(calls)` stops where the batch from `i + 1` on the new copy stops. */
  lemma StoppedAfterWrite(cs: seq<Character>, next: seq<Character>, reply: nat -> Outcome<Dossier>, write: (Character, Dossier) -> Character,
                          i: nat, calls: nat, chars: seq<Character>, ok: bool, k: nat)
    requires i < k <= |cs| == |next| && !cs[i].isFleshed && reply(calls).Ok?
    requires forall t :: i < t < |cs| ==> next[t] == cs[t]
    requires StoppedAt(next, reply, write, i + 1, calls + 1, chars, ok, k)
    requires chars[i] == write(cs[i], reply(calls).value)
    ensures StoppedAt(cs, reply, write, i, calls, chars, ok, k)
  {
    if k < |cs| {
      assert next[k] == cs[k];
      ReplyAfterWrite(cs, next, reply, i, calls, k);
    }
    forall j | i <= j < k && !cs[j].isFleshed
      ensures reply(calls + Pending(cs, i, j)).Ok? && chars[j] == write(cs[j], reply(calls + Pending(cs, i, j)).value)
    {
      if j > i {
        assert next[j] == cs[j];
        assert chars[j] == write(next[j], reply(calls + 1 + Pending(next, i + 1, j)).value);
        WrittenSlotAfterWrite(cs, next, reply, write, i, calls, chars, j);
      } else {
        assert calls + Pending(cs, i, j) == calls;
      }
    }
    forall j | k <= j < |cs|
      ensures chars[j] == cs[j]
    {
      assert next[j] == cs[j];
    }
  }

  /** `FleshFromStops` for a batch whose slot `i` is already fleshed. */
  lemma StopsAfterSkip(d: Mystery, cs: seq<Character>, reply: nat -> Outcome<Dossier>, i: nat, calls: nat)
    requires i < |cs| && cs[i].isFleshed
    requires var r := FleshFrom(d, cs, reply, i + 1, calls); Stops(cs, reply, Fleshed, i + 1, calls, r.chars, r.ok)
    ensures var r := FleshFrom(d, cs, reply, i, calls); Stops(cs, reply, Fleshed, i, calls, r.chars, r.ok)
  {
    FleshFromUnfold(d, cs, reply, i, calls);
    FleshFromKeeps(d, cs, reply, i + 1, calls);
    var r := FleshFrom(d, cs, reply, i + 1, calls);
    var k :| i + 1 <= k <= |cs| && StoppedAt(cs, reply, Fleshed, i + 1, calls, r.chars, r.ok, k);
    StoppedAfterSkip(cs, reply, Fleshed, i, calls, r.chars, r.ok, k);
  }

  /** `FleshFromStops` for a batch whose slot `i` gets the dossier `reply(calls)`. */
  lemma StopsAfterWrite(d: Mystery, cs: seq<Character>, reply: nat -> Outcome<Dossier>, i: nat, calls: nat)
    requires i < |cs| && !cs[i].isFleshed && reply(calls).Ok?
    requires var next := cs[i := Fleshed(cs[i], reply(calls).value)];
      var r := FleshFrom(d, next, reply, i + 1, calls + 1);
      Stops(next, reply, Fleshed, i + 1, calls + 1, r.chars, r.ok)
    ensures var r := FleshFrom(d, cs, reply, i, calls); Stops(cs, reply, Fleshed, i, calls, r.chars, r.ok)
  {
    var next := cs[i := Fleshed(cs[i], reply(calls).value)];
    FleshFromUnfold(d, cs, reply, i, calls);
    FleshFromKeeps(d, next, reply, i + 1, calls + 1);
    var r := FleshFrom(d, next, reply, i + 1, calls + 1);
    var k :| i + 1 <= k <= |cs| && StoppedAt(next, reply, Fleshed, i + 1, calls + 1, r.chars, r.ok, k);
    StoppedAfterWrite(cs, next, reply, Fleshed, i, calls, r.chars, r.ok, k);
  }

  /**
   * Generate All never rolls back: a batch stops at some slot, with every slot before it
   * holding the dossier its own reply gave (or already fleshed) and every slot from it on
   * untouched.
   */
  lemma {:induction false} FleshFromStops(d: Mystery, cs: seq<Character>, reply: nat -> Outcome<Dossier>, i: nat, calls: nat)
    requires i <= |cs|
    ensures var r := FleshFrom(d, cs, reply, i, calls); Stops(cs, reply, Fleshed, i, calls, r.chars, r.ok)
    decreases |cs| - i
  {
    var r := FleshFrom(d, cs, reply, i, calls);
    if i >= |cs| {
      assert StoppedAt(cs, reply, Fleshed, i, calls, r.chars, r.ok, i);
    } else if cs[i].isFleshed {
      FleshFromStops(d, cs, reply, i + 1, calls);
      StopsAfterSkip(d, cs, reply, i, calls);
    } else if reply(calls).Err? {
      FleshFromUnfold(d, cs, reply, i, calls);
      assert StoppedAt(cs, reply, Fleshed, i, calls, r.chars, r.ok, i);
    } else {
      FleshFromStops(d, cs[i := Fleshed(cs[i], reply(calls).value)], reply, i + 1, calls + 1);
      StopsAfterWrite(d, cs, reply, i, calls);
    }
  }

  /** "Next" is enabled iff every character is fleshed. */
  predicate CanProceed(d: Mystery) {
    AllFleshed(d.characters)
  }

  /**
   * Generate All, stated for the whole list: a finished run fleshes every character, so "next"
   * is enabled and running it again makes zero requests; a run on an all-fleshed cast makes zero
   * requests.
   */
  lemma FleshAllProperties(d: Mystery, reply: nat -> Outcome<Dossier>, again: nat -> Outcome<Dossier>)
    ensures var r := FleshAllRun(d, reply);
      && |r.chars| == |d.characters|
      && (r.ok ==> AllFleshed(r.chars))
      && (AllFleshed(d.characters) ==> r == BatchRun(d.characters, [], true))
      && (r.ok ==> FleshAllRun(d.(characters := r.chars), again) == BatchRun(r.chars, [], true))
      && (r.ok ==> CanProceed(d.(characters := r.chars)))
  {
    var r := FleshAllRun(d, reply);
    FleshFromShape(d, d.characters, reply, 0, 0);
    if AllFleshed(d.characters) {
      FleshFromNothingToDo(d, d.characters, reply, 0, 0);
    }
    if r.ok {
      FleshFromNothingToDo(d.(characters := r.chars), r.chars, again, 0, 0);
    }
  }

  // ---------------------------------------------------------------------------------------
  // The panel

  /** The component's busy flags: a batch is running, or one character is being written. */
  class Panel {
    var loadingAll: bool
    var generatingId: Option<string>

    /** Both generate buttons are enabled exactly when the panel is idle. */
    predicate Idle()
      reads this
    {
      !loadingAll && generatingId.None?
    }

    constructor ()
      ensures Idle()
    {
      loadingAll := false;
      generatingId := None;
    }

    /** `handleFleshDossier`: one request for `c`; on success its fleshed dossier is committed by id. */
    method FleshDossier(store: Store, c: Character, reply: Outcome<Dossier>) returns (request: DossierRequest)
      requires store.Valid() && Idle()
      modifies this, store
      ensures store.Valid() && Idle()
      ensures request == RequestFor(old(store.doc), c)
      ensures reply.Ok? ==> store.doc == old(store.doc).(characters := FleshOne(old(store.doc.characters), c, reply.value))
      ensures reply.Err? ==> store.doc == old(store.doc)
      ensures store.view == old(store.view) && store.generatingStep == old(store.generatingStep)
    {
      generatingId := Some(c.id);
      var data := store.doc;
      request := RequestFor(data, c);
      if reply.Ok? {
        store.Update(CastPatch(FleshOne(data.characters, c, reply.value)));
      }
      generatingId := None;
    }

    /**
     * `handleFleshAll`: walk a copy of the list, skip fleshed slots, write slot `i` and commit a
     * copy of the whole list after each reply; the first failure stops the walk with the last
     * commit standing.
     */
    method FleshAll(store: Store, reply: nat -> Outcome<Dossier>) returns (requests: seq<DossierRequest>)
      requires store.Valid() && Idle()
      modifies this, store
      ensures store.Valid() && Idle()
      ensures store.doc == old(store.doc).(characters := FleshAllRun(old(store.doc), reply).chars)
      ensures requests == FleshAllRun(old(store.doc), reply).requests
      ensures store.view == old(store.view) && store.generatingStep == old(store.generatingStep)
    {
      loadingAll := true;
      var data := store.doc;
      ghost var run := FleshAllRun(data, reply);
      var updated := new Character[|data.characters|](j requires 0 <= j < |data.characters| => data.characters[j]);
      ghost var cur := data.characters;
      requests := [];
      var i := 0;
      var calls := 0;
      while i < updated.Length
        invariant 0 <= i <= updated.Length == |cur| == |data.characters|
        invariant updated[..] == cur
        invariant FleshFrom(data, cur, reply, i, calls).chars == run.chars
        invariant requests + FleshFrom(data, cur, reply, i, calls).requests == run.requests
        invariant store.doc == data.(characters := cur)
        invariant store.Valid() && loadingAll && generatingId.None?
        invariant store.view == old(store.view) && store.generatingStep == old(store.generatingStep)
      {
        var c := updated[i];
        if !c.isFleshed {
          if reply(calls).Err? {
            FleshFromUnfold(data, cur, reply, i, calls);
            requests := requests + [RequestFor(data, c)];
            loadingAll := false;
            return;
          }
          FleshFromWriteStep(data, cur, reply, i, calls, requests, run);
          requests := requests + [RequestFor(data, c)];
          var written := Fleshed(c, reply(calls).value);
          updated[i] := written;
          cur := cur[i := written];
          assert updated[..] == cur;
          CommitCharacters(data, store.doc, cur);
          store.Update(CastPatch(updated[..]));
          calls := calls + 1;
        } else {
          FleshFromUnfold(data, cur, reply, i, calls);
        }
        i := i + 1;
      }
      loadingAll := false;
    }
  }
}
