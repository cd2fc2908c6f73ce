/**
 * StoryBuilder.tsx: the setup form, drafting a concept from it, and refining the current
 * concept with a free-text suggestion.
 */
module StoryBuilder {
  import opened Types
  import opened Gateway
  import opened App

  const DefaultTheme: string := "Victorian Gothic Estate"
  const DefaultLocation: string := "A decaying mansion in the moors"
  const DefaultGuests: int := 6

  /** The form's local state. */
  datatype Form = Form(theme: string, environment: string, numGuests: int, details: string, suggestion: string)

  /** The form as it opens: document values, or the local defaults where the document's are falsy. */
  function InitialForm(d: Mystery): (f: Form)
    ensures d.theme != "" ==> f.theme == d.theme
    ensures d.environment != "" ==> f.environment == d.environment
    ensures d.numGuests != 0 ==> f.numGuests == d.numGuests
    ensures d.theme == "" ==> f.theme == DefaultTheme
    ensures d.environment == "" ==> f.environment == DefaultLocation
    ensures d.numGuests == 0 ==> f.numGuests == DefaultGuests
    ensures f.theme != "" && f.environment != "" && f.numGuests != 0
    ensures f.details == "" && f.suggestion == ""
  {
    Form(if d.theme != "" then d.theme else DefaultTheme,
         if d.environment != "" then d.environment else DefaultLocation,
         if d.numGuests != 0 then d.numGuests else DefaultGuests,
         "", "")
  }

  // ---------------------------------------------------------------------------------------
  // Draft

  /** What the draft request is given. */
  datatype ConceptRequest = ConceptRequest(theme: string, environment: string, numGuests: int, details: string)

  function DraftRequest(f: Form): ConceptRequest {
    ConceptRequest(f.theme, f.environment, f.numGuests, f.details)
  }

  /** `handleGenerateConcept`: the update committed for a reply, none when the request fails. */
  function DraftPatch(f: Form, reply: Outcome<Concept>): (p: Option<MysteryPatch>)
    ensures p.Some? <==> reply.Ok?
  {
    match reply
    case Ok(c) => Some(ConceptPatch(c).(theme := Some(f.theme), numGuests := Some(f.numGuests)))
    case Err(_) => None
  }

  /**
   * A draft writes the six concept fields from the reply (victim to victimName, atmosphere to
   * environment, incident to coreStory, parties to generalParties) plus the form's theme and
   * suspect count, and nothing else.
   */
  lemma DraftEffect(d: Mystery, f: Form, c: Concept)
    ensures var p := DraftPatch(f, Ok(c)).value;
      var n := UpdateData(d, p);
      && Keys(p) == ConceptKeys + {Theme, NumGuests}
      && n.title == c.title && n.victimName == c.victim && n.environment == c.atmosphere
      && n.coreStory == c.incident && n.generalParties == c.parties && n.twist == c.twist
      && n.theme == f.theme && n.numGuests == f.numGuests
      && SameOutside(d, n, ConceptKeys + {Theme, NumGuests})
  {
    var p := DraftPatch(f, Ok(c)).value;
    forall g ensures g in Keys(p) <==> g in ConceptKeys + {Theme, NumGuests} {
      KeysMeaning(p, g);
    }
    UpdateDataChangesOnlyKeys(d, p);
  }

  // ---------------------------------------------------------------------------------------
  // Refine

  /** The whitespace that `String.prototype.trim` removes, within the characters modelled here. */
  predicate IsSpace(ch: char) {
    ch == ' ' || ch == '\t' || ch == '\n' || ch == '\r' || ch == '\U{0B}' || ch == '\U{0C}'
    || ch == '\U{A0}' || ch == '\U{FEFF}'
  }

  /** `!s.trim()` */
  predicate Blank(s: string) {
    forall i :: 0 <= i < |s| ==> IsSpace(s[i])
  }

  /** The document's concept, in the reply's vocabulary: what a refinement is asked to start from. */
  function CurrentConcept(d: Mystery): Concept {
    Concept(d.title, d.victimName, d.environment, d.coreStory, d.generalParties, d.twist)
  }

  /** Reading the concept back after committing it gives the same concept. */
  lemma ConceptRoundTrip(d: Mystery, c: Concept)
    ensures CurrentConcept(UpdateData(d, ConceptPatch(c))) == c
    ensures UpdateData(d, ConceptPatch(CurrentConcept(d))) == d
  {
  }

  /** What a refinement request is given: the current concept and the suggestion text. */
  datatype RefineRequest = RefineRequest(current: Concept, suggestion: string)

  /** The outcome of pressing "refine": the request sent (if any), the update, and the suggestion box afterwards. */
  datatype RefineStep = RefineStep(request: Option<RefineRequest>, patch: Option<MysteryPatch>, suggestion: string)

  /** `handleRefineConcept` with the given reply to the request, if one is made. */
  function Refine(d: Mystery, suggestion: string, reply: Outcome<Concept>): (r: RefineStep)
    ensures Blank(suggestion) ==> r.request.None? && r.patch.None? && r.suggestion == suggestion
    ensures !Blank(suggestion) ==> r.request == Some(RefineRequest(CurrentConcept(d), suggestion))
    ensures r.patch.Some? <==> !Blank(suggestion) && reply.Ok?
    ensures r.suggestion == (if r.patch.Some? then "" else suggestion)
    ensures r.patch.Some? ==> Keys(r.patch.value) == ConceptKeys
  {
    if Blank(suggestion) then RefineStep(None, None, suggestion)
    else
      match reply
      case Ok(c) =>
        ConceptPatchKeys(c);
        RefineStep(Some(RefineRequest(CurrentConcept(d), suggestion)), Some(ConceptPatch(c)), "")
      case Err(_) => RefineStep(Some(RefineRequest(CurrentConcept(d), suggestion)), None, suggestion)
  }

  /**
   * A successful refinement replaces the concept with the reply and leaves theme, suspect count,
   * cast, clues, roles, beats and report as they were.
   */
  lemma RefineEffect(d: Mystery, suggestion: string, c: Concept)
    requires !Blank(suggestion)
    ensures var n := UpdateData(d, Refine(d, suggestion, Ok(c)).patch.value);
      && CurrentConcept(n) == c
      && n.theme == d.theme && n.numGuests == d.numGuests && n.characters == d.characters
      && n.clues == d.clues && n.killerId == d.killerId && n.saboteurId == d.saboteurId
      && n.beats == d.beats && n.consistencyReport == d.consistencyReport
      && SameOutside(d, n, ConceptKeys)
  {
    var p := Refine(d, suggestion, Ok(c)).patch.value;
    ConceptRoundTrip(d, c);
    UpdateDataChangesOnlyKeys(d, p);
  }

  /**
   * Blankness is what `trim` decides: padding with whitespace on either side never changes it,
   * and a text is blank exactly when each of its pieces is.
   */
  lemma {:induction false} BlankPadding(pad: string, s: string, pad2: string)
    requires Blank(pad) && Blank(pad2)
    ensures Blank(pad + s + pad2) <==> Blank(s)
    ensures Blank(s + pad2) <==> Blank(s) && Blank(pad2)
  {
    var t := pad + s + pad2;
    if Blank(s) {
      forall i | 0 <= i < |t| ensures IsSpace(t[i]) {
        if i < |pad| {
          assert t[i] == pad[i];
        } else if i < |pad| + |s| {
          assert t[i] == s[i - |pad|];
        } else {
          assert t[i] == pad2[i - |pad| - |s|];
        }
      }
    }
    if Blank(t) {
      forall i | 0 <= i < |s| ensures IsSpace(s[i]) {
        assert s[i] == t[|pad| + i];
      }
    }
    var u := s + pad2;
    if Blank(u) {
      forall i | 0 <= i < |s| ensures IsSpace(s[i]) {
        assert s[i] == u[i];
      }
    }
  }

  /** A blank suggestion with any surrounding whitespace is still blank; a single letter is not. */
  lemma BlankExamples()
    ensures Blank("") && Blank(" \t\n")
    ensures !Blank(" x ")
  {
    assert !IsSpace(" x "[1]);
  }
}
