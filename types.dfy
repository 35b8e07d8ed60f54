/** The analysis record and the chat message, field for field as the
    application declares them; optional fields are `Option`s. */
module Types {
  import opened Wrappers

  datatype AnalysisType = Metaphor | Idiom | Word | Slang | Term | Chat

  /** The string value each enumerator carries (`AnalysisType.METAPHOR = 'Metaphor'`, …). */
  function TypeName(t: AnalysisType): string {
    match t
    case Metaphor => "Metaphor"
    case Idiom => "Idiom"
    case Word => "Word"
    case Slang => "Slang"
    case Term => "Term"
    case Chat => "Chat"
  }

  datatype GroundingSource = GroundingSource(title: string, uri: string)

  datatype Bilingual = Bilingual(en: string, cn: string)

  datatype SemanticCore = SemanticCore(
    en: string,
    cn: string,
    cnDefinition: Option<string>,
    contextualMeaning: Bilingual)

  datatype Pragmatics = Pragmatics(tone: string, register: string, nuanceCn: string)

  datatype Mapping = Mapping(source: string, target: string, explanationCn: string)

  datatype UsageExample = UsageExample(category: string, en: string, cn: string)

  /** Provenance; `provider` is always "doubao". */
  datatype Meta = Meta(provider: string, model: string, latencyMs: real)

  /** One completed analysis (`SemanticAnalysis`); `kind` is the `type` field. */
  datatype SemanticAnalysis = SemanticAnalysis(
    id: string,
    term: string,
    rootForm: Option<string>,
    partOfSpeech: string,
    context: string,
    kind: AnalysisType,
    tags: seq<string>,
    semanticCore: SemanticCore,
    pragmatics: Pragmatics,
    mapping: Option<Mapping>,
    originStory: string,
    synonyms: seq<string>,
    antonyms: Option<seq<string>>,
    collocations: seq<string>,
    usageExamples: seq<UsageExample>,
    impactScore: real,
    timestamp: string,
    groundingSources: Option<seq<GroundingSource>>,
    visualContext: Option<string>,
    meta: Option<Meta>)

  datatype Role = User | Model

  datatype ChatMessage = ChatMessage(role: Role, text: string, timestamp: string)

  /** Some entry of `s` carries identity `id` (`s.find(i => i.id === id)` succeeds). */
  predicate HasId(s: seq<SemanticAnalysis>, id: string) {
    exists k :: 0 <= k < |s| && s[k].id == id
  }

  /** No two entries of `s` share an identity. */
  predicate UniqueIds(s: seq<SemanticAnalysis>) {
    forall i, j :: 0 <= i < j < |s| ==> s[i].id != s[j].id
  }
}
