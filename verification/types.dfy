/** The mystery document and its parts, as declared in types.ts. */
module Types {

  datatype Option<+T> = None | Some(value: T) {
    /** `x ?? default` */
    function GetOr(default: T): T {
      match this
      case Some(v) => v
      case None => default
    }
  }

  /** `gender: 'male' | 'female'` */
  datatype Gender = Male | Female

  /** One disclosure block: what a player shares, and what a player hides. */
  datatype CharacterInfo = CharacterInfo(publicInfo: seq<string>, privateInfo: seq<string>)

  const EmptyInfo: CharacterInfo := CharacterInfo([], [])

  /** A suspect; round1 is the pre-twist block and round2 the post-twist block. */
  datatype Character = Character(
    id: string,
    name: string,
    gender: Gender,
    archetype: string,
    initialMotive: string,
    preGameBlurb: string,
    background: string,
    relationships: string,
    secrets: string,
    connectionToVictim: string,
    isFleshed: bool,
    round1: CharacterInfo,
    round2: CharacterInfo)

  datatype Clue = Clue(id: string, name: string, description: string, locationToHide: string, relevance: string)

  datatype StoryBeat = StoryBeat(beatName: string, description: string, clues: seq<string>)

  datatype ConsistencyIssue = ConsistencyIssue(id: string, description: string, suggestion: string, fixed: bool)

  datatype ConsistencyReport = ConsistencyReport(isValid: bool, issues: seq<ConsistencyIssue>, notes: string)

  /** The whole working document (`MysteryData`); `killerId?`, `saboteurId?` and a null report are `None`. */
  datatype Mystery = Mystery(
    title: string,
    theme: string,
    victimName: string,
    environment: string,
    generalParties: string,
    clueTools: string,
    coreStory: string,
    timeline: string,
    twist: string,
    numGuests: int,
    characters: seq<Character>,
    clues: seq<Clue>,
    killerId: Option<string>,
    saboteurId: Option<string>,
    beats: seq<StoryBeat>,
    consistencyReport: Option<ConsistencyReport>)

  /** The seven pipeline views, named as the enum names them. */
  datatype ViewState = SETUP | CASTING | PLANNING | CLUES | DOSSIERS | AUDIT | OUTPUT

  /** The string value of each enum member. */
  function ViewName(v: ViewState): string {
    match v
    case SETUP => "SETUP"
    case CASTING => "CASTING"
    case PLANNING => "PLANNING"
    case CLUES => "CLUES"
    case DOSSIERS => "DOSSIERS"
    case AUDIT => "AUDIT"
    case OUTPUT => "OUTPUT"
  }

  /** `Object.values(ViewState).includes(s)`, returning the member found. */
  function ViewFromName(s: string): (r: Option<ViewState>)
    ensures r.Some? ==> ViewName(r.value) == s
    ensures forall v :: ViewName(v) == s ==> r == Some(v)
  {
    if s == "SETUP" then Some(SETUP)
    else if s == "CASTING" then Some(CASTING)
    else if s == "PLANNING" then Some(PLANNING)
    else if s == "CLUES" then Some(CLUES)
    else if s == "DOSSIERS" then Some(DOSSIERS)
    else if s == "AUDIT" then Some(AUDIT)
    else if s == "OUTPUT" then Some(OUTPUT)
    else None
  }

  /** Unique ids, the document's standing assumption about `characters`. */
  ghost predicate UniqueIds(cs: seq<Character>) {
    forall i, j :: 0 <= i < j < |cs| ==> cs[i].id != cs[j].id
  }

  predicate AllFleshed(cs: seq<Character>) {
    forall i :: 0 <= i < |cs| ==> cs[i].isFleshed
  }

  /** `Partial<Character>`: a field is replaced exactly when it is present. */
  datatype CharacterPatch = CharacterPatch(
    id: Option<string>,
    name: Option<string>,
    gender: Option<Gender>,
    archetype: Option<string>,
    initialMotive: Option<string>,
    preGameBlurb: Option<string>,
    background: Option<string>,
    relationships: Option<string>,
    secrets: Option<string>,
    connectionToVictim: Option<string>,
    isFleshed: Option<bool>,
    round1: Option<CharacterInfo>,
    round2: Option<CharacterInfo>)

  const NoCharacterChange: CharacterPatch :=
    CharacterPatch(None, None, None, None, None, None, None, None, None, None, None, None, None)

  /** `{ ...c, ...u }` */
  function MergeCharacter(c: Character, u: CharacterPatch): (r: Character)
    ensures r.id == u.id.GetOr(c.id) && r.name == u.name.GetOr(c.name) && r.gender == u.gender.GetOr(c.gender)
    ensures r.archetype == u.archetype.GetOr(c.archetype) && r.initialMotive == u.initialMotive.GetOr(c.initialMotive)
    ensures r.preGameBlurb == u.preGameBlurb.GetOr(c.preGameBlurb) && r.background == u.background.GetOr(c.background)
    ensures r.relationships == u.relationships.GetOr(c.relationships) && r.secrets == u.secrets.GetOr(c.secrets)
    ensures r.connectionToVictim == u.connectionToVictim.GetOr(c.connectionToVictim)
    ensures r.isFleshed == u.isFleshed.GetOr(c.isFleshed)
    ensures r.round1 == u.round1.GetOr(c.round1) && r.round2 == u.round2.GetOr(c.round2)
    ensures u == NoCharacterChange ==> r == c
  {
    Character(
      u.id.GetOr(c.id), u.name.GetOr(c.name), u.gender.GetOr(c.gender), u.archetype.GetOr(c.archetype),
      u.initialMotive.GetOr(c.initialMotive), u.preGameBlurb.GetOr(c.preGameBlurb),
      u.background.GetOr(c.background), u.relationships.GetOr(c.relationships), u.secrets.GetOr(c.secrets),
      u.connectionToVictim.GetOr(c.connectionToVictim), u.isFleshed.GetOr(c.isFleshed),
      u.round1.GetOr(c.round1), u.round2.GetOr(c.round2))
  }

  /** `Partial<MysteryData>`; `killerId` and `consistencyReport` may be set to absent/null, hence the nested Option. */
  datatype MysteryPatch = MysteryPatch(
    title: Option<string>,
    theme: Option<string>,
    victimName: Option<string>,
    environment: Option<string>,
    generalParties: Option<string>,
    clueTools: Option<string>,
    coreStory: Option<string>,
    timeline: Option<string>,
    twist: Option<string>,
    numGuests: Option<int>,
    characters: Option<seq<Character>>,
    clues: Option<seq<Clue>>,
    killerId: Option<Option<string>>,
    saboteurId: Option<Option<string>>,
    beats: Option<seq<StoryBeat>>,
    consistencyReport: Option<Option<ConsistencyReport>>)

  const NoChange: MysteryPatch :=
    MysteryPatch(None, None, None, None, None, None, None, None, None, None, None, None, None, None, None, None)

  /** The top-level keys of a document, used to state which fields an update may touch. */
  datatype Field =
    | Title | Theme | VictimName | Environment | GeneralParties | ClueTools | CoreStory | Timeline | Twist
    | NumGuests | Characters | Clues | KillerId | SaboteurId | Beats | Report

  /** A field's value, whatever its type. */
  datatype Value =
    | TextValue(text: string)
    | NumberValue(number: int)
    | CastValue(cast: seq<Character>)
    | ClueValue(clueList: seq<Clue>)
    | RefValue(ref: Option<string>)
    | BeatValue(beatList: seq<StoryBeat>)
    | ReportValue(report: Option<ConsistencyReport>)

  function Get(d: Mystery, f: Field): Value {
    match f
    case Title => TextValue(d.title)
    case Theme => TextValue(d.theme)
    case VictimName => TextValue(d.victimName)
    case Environment => TextValue(d.environment)
    case GeneralParties => TextValue(d.generalParties)
    case ClueTools => TextValue(d.clueTools)
    case CoreStory => TextValue(d.coreStory)
    case Timeline => TextValue(d.timeline)
    case Twist => TextValue(d.twist)
    case NumGuests => NumberValue(d.numGuests)
    case Characters => CastValue(d.characters)
    case Clues => ClueValue(d.clues)
    case KillerId => RefValue(d.killerId)
    case SaboteurId => RefValue(d.saboteurId)
    case Beats => BeatValue(d.beats)
    case Report => ReportValue(d.consistencyReport)
  }

  function Lift<T>(o: Option<T>, wrap: T -> Value): Option<Value> {
    match o
    case Some(v) => Some(wrap(v))
    case None => None
  }

  /** The value a patch supplies for a field, if it supplies one. */
  function PatchGet(p: MysteryPatch, f: Field): Option<Value> {
    match f
    case Title => Lift(p.title, s => TextValue(s))
    case Theme => Lift(p.theme, s => TextValue(s))
    case VictimName => Lift(p.victimName, s => TextValue(s))
    case Environment => Lift(p.environment, s => TextValue(s))
    case GeneralParties => Lift(p.generalParties, s => TextValue(s))
    case ClueTools => Lift(p.clueTools, s => TextValue(s))
    case CoreStory => Lift(p.coreStory, s => TextValue(s))
    case Timeline => Lift(p.timeline, s => TextValue(s))
    case Twist => Lift(p.twist, s => TextValue(s))
    case NumGuests => Lift(p.numGuests, n => NumberValue(n))
    case Characters => Lift(p.characters, cs => CastValue(cs))
    case Clues => Lift(p.clues, cs => ClueValue(cs))
    case KillerId => Lift(p.killerId, r => RefValue(r))
    case SaboteurId => Lift(p.saboteurId, r => RefValue(r))
    case Beats => Lift(p.beats, bs => BeatValue(bs))
    case Report => Lift(p.consistencyReport, r => ReportValue(r))
  }

  const AllFields: set<Field> :=
    {Title, Theme, VictimName, Environment, GeneralParties, ClueTools, CoreStory, Timeline, Twist,
     NumGuests, Characters, Clues, KillerId, SaboteurId, Beats, Report}

  /** The keys present in a patch. */
  function Keys(p: MysteryPatch): set<Field> {
    set f | f in AllFields && PatchGet(p, f).Some?
  }

  lemma KeysMeaning(p: MysteryPatch, f: Field)
    ensures f in Keys(p) <==> PatchGet(p, f).Some?
  {
    assert f in AllFields by {
      match f
      case Title =>
      case Theme =>
      case VictimName =>
      case Environment =>
      case GeneralParties =>
      case ClueTools =>
      case CoreStory =>
      case Timeline =>
      case Twist =>
      case NumGuests =>
      case Characters =>
      case Clues =>
      case KillerId =>
      case SaboteurId =>
      case Beats =>
      case Report =>
    }
  }

  /** Two documents agree on every field outside `fs`. */
  ghost predicate SameOutside(a: Mystery, b: Mystery, fs: set<Field>) {
    forall f :: f !in fs ==> Get(a, f) == Get(b, f)
  }
}
