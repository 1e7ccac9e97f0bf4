/**
  The violation knowledge graph: a cache of explanations keyed by violation
  signature, stored as RDF triples. The graph is a finite set of triples; each
  operation of `ViolationKnowledgeGraph` is a function from the triple set
  before it to the triple set after it.

  Three things the source delegates are parameters (`Externals`): the MD5 hex
  digest of a signature's canonical form, and `json.dumps`/`json.loads`, of
  which the model assumes only that `loads` inverts `dumps` and that `dumps`
  never writes empty text.
 */
module ViolationKG {
  import opened Results
  import opened JsonValues
  import opened Architecture
  import opened ParamOrder

  // ---------------------------------------------------------------------------
  // RDF terms and vocabulary
  // ---------------------------------------------------------------------------

  /** The two `xsh:` classes the knowledge graph types its nodes with. */
  datatype RdfClass = ViolationSignatureClass | ExplanationClass

  /**
    An RDF node: an IRI, a plain literal, or one of the two class IRIs of the
    vocabulary (kept apart from `Iri` as `Property` keeps the predicates apart).
   */
  datatype Term = Iri(iri: string) | Lit(lexical: string) | Class(rdfClass: RdfClass)

  /**
    An RDF predicate: the terms of the `xsh:` vocabulary the knowledge graph
    writes and reads, `rdf:type`, and `OtherProperty` for any predicate outside
    that vocabulary (the ontology's own triples use such predicates).
   */
  datatype Property =
    | RdfType
    | ConstraintComponentProperty
    | PropertyPathProperty
    | ViolationTypeProperty
    | ConstraintParamsProperty
    | HasExplanationProperty
    | NaturalLanguageTextProperty
    | CorrectionSuggestionsProperty
    | ProvidedByModelProperty
    | ViolationProperty
    | JustificationTreeProperty
    | RetrievedContextProperty
    | OtherProperty(iri: string)

  datatype Triple = Triple(subject: Term, property: Property, obj: Term)

  const XshNamespace: string := "http://xpshacl.org/#"

  /** The IRI each class stands for. */
  function ClassIri(c: RdfClass): string {
    match c
    case ViolationSignatureClass => XshNamespace + "ViolationSignature"
    case ExplanationClass => XshNamespace + "Explanation"
  }

  /** The IRI each predicate stands for. */
  function PropertyIri(p: Property): string {
    match p
    case RdfType => "http://www.w3.org/1999/02/22-rdf-syntax-ns#type"
    case ConstraintComponentProperty => XshNamespace + "constraintComponent"
    case PropertyPathProperty => XshNamespace + "propertyPath"
    case ViolationTypeProperty => XshNamespace + "violationType"
    case ConstraintParamsProperty => XshNamespace + "constraintParams"
    case HasExplanationProperty => XshNamespace + "hasExplanation"
    case NaturalLanguageTextProperty => XshNamespace + "naturalLanguageText"
    case CorrectionSuggestionsProperty => XshNamespace + "correctionSuggestions"
    case ProvidedByModelProperty => XshNamespace + "providedByModel"
    case ViolationProperty => XshNamespace + "violation"
    case JustificationTreeProperty => XshNamespace + "justificationTree"
    case RetrievedContextProperty => XshNamespace + "retrievedContext"
    case OtherProperty(iri) => iri
  }

  /**
    The predicates `add_violation` and `get_explanation` use have pairwise
    distinct IRIs, so telling them apart as constructors loses nothing.
   */
  lemma NamedPropertiesDistinct(p: Property, q: Property)
    requires !p.OtherProperty? && !q.OtherProperty? && p != q
    ensures PropertyIri(p) != PropertyIri(q)
  {
    var a, b := PropertyIri(p), PropertyIri(q);
    if p != RdfType && q != RdfType {
      assert a[|XshNamespace|..] != b[|XshNamespace|..];
    } else {
      assert a[7] != b[7];
    }
  }

  /** `str(term)`. */
  function Text(t: Term): string {
    match t
    case Iri(i) => i
    case Lit(l) => l
    case Class(c) => ClassIri(c)
  }

  /** Truthiness of what `graph.value` returns: None is false, and so is a term with empty text. */
  predicate TruthyTerm(o: Option<Term>) {
    o.Some? && Text(o.value) != ""
  }

  /** Truthiness of an optional Python string. */
  predicate Present(o: Option<string>) {
    o.Some? && o.value != ""
  }

  // ---------------------------------------------------------------------------
  // Signatures and their URIs
  // ---------------------------------------------------------------------------

  /** The four fields of a violation signature the knowledge graph reads; the parameters are a dict's items. */
  datatype ViolationSignature = ViolationSignature(
    constraintId: string,
    propertyPath: Option<string>,
    violationType: Option<string>,
    constraintParams: ParamDict)

  /**
    What `signature_to_uri` hashes: the f-string of the constraint id, the
    property path, the violation type and the sorted parameter items.
   */
  datatype CanonicalSignature = CanonicalSignature(
    constraintId: string,
    propertyPath: string,
    violationType: string,
    sortedParams: seq<Param>)

  /** The collaborators the source calls: MD5 and the JSON text codec. */
  datatype Externals = Externals(
    md5Hex: CanonicalSignature -> string,
    dumps: Json -> string,
    loads: string -> Result<Json>)

  /** What the model needs of `json.dumps`/`json.loads`. */
  ghost predicate JsonCodec(ext: Externals) {
    forall j :: ext.loads(ext.dumps(j)) == Success(j) && ext.dumps(j) != ""
  }

  /** f-string formatting of an optional string: None prints as "None". */
  function FormatOptional(o: Option<string>): string {
    match o
    case None => "None"
    case Some(s) => s
  }

  /** The canonical form of a signature. */
  function Canonical(sig: ViolationSignature): CanonicalSignature {
    CanonicalSignature(sig.constraintId, FormatOptional(sig.propertyPath),
                       FormatOptional(sig.violationType), SortItems(sig.constraintParams))
  }

  /** `signature_to_uri`: `xsh:sig_<md5 hex of the canonical form>`. */
  function SignatureUri(ext: Externals, sig: ViolationSignature): Term {
    Iri(XshNamespace + "sig_" + ext.md5Hex(Canonical(sig)))
  }

  /** The explanation node `add_violation` hangs off a signature: the signature URI plus "_explanation". */
  function ExplanationUri(ext: Externals, sig: ViolationSignature): (r: Term)
    ensures r != SignatureUri(ext, sig)
  {
    Iri(SignatureUri(ext, sig).iri + "_explanation")
  }

  /** The parameters as the dict `json.dumps` sees; a later item wins, as in `dict(items)`. */
  function ParamsToDict(params: seq<Param>): map<string, Json> {
    if params == [] then map[]
    else ParamsToDict(params[..|params| - 1])[params[|params| - 1].0 := params[|params| - 1].1]
  }

  // ---------------------------------------------------------------------------
  // Reading the graph
  // ---------------------------------------------------------------------------

  /** The objects of every triple `(s, p, _)` in the graph. */
  function Objects(g: set<Triple>, s: Term, p: Property): set<Term> {
    set t | t in g && t.subject == s && t.property == p :: t.obj
  }

  /** Some member of a set of objects, or None for the empty set. */
  ghost function Pick(objects: set<Term>): (r: Option<Term>)
    ensures r.None? <==> objects == {}
    ensures r.Some? ==> r.value in objects
  {
    if objects == {} then None else var o :| o in objects; Some(o)
  }

  /**
    `graph.value(subject=s, predicate=p)`: some object of `(s, p, _)`, or None.
    Which one rdflib returns when there are several is left open; where the
    object is unique it is that object.
   */
  ghost function Value(g: set<Triple>, s: Term, p: Property): (r: Option<Term>)
    ensures r.None? <==> Objects(g, s, p) == {}
    ensures r.Some? ==> r.value in Objects(g, s, p)
  {
    Pick(Objects(g, s, p))
  }

  /** `has_violation`: the signature URI is typed `xsh:ViolationSignature`. */
  predicate HasViolation(ext: Externals, g: set<Triple>, sig: ViolationSignature) {
    Triple(SignatureUri(ext, sig), RdfType, Class(ViolationSignatureClass)) in g
  }

  /** `len(self.graph)`. */
  function Size(g: set<Triple>): nat {
    |g|
  }

  /** `clear`: a fresh, empty graph. */
  function Clear(g: set<Triple>): (r: set<Triple>)
    ensures Size(r) == 0
    ensures forall ext, sig :: !HasViolation(ext, r, sig)
    ensures forall ext, sig :: GetExplanation(ext, r, sig) == Failure(NoExplanation)
  {
    {}
  }

  // ---------------------------------------------------------------------------
  // add_violation
  // ---------------------------------------------------------------------------

  /** `"\n".join(lines)`. */
  function Join(lines: seq<string>): string {
    if lines == [] then ""
    else if |lines| == 1 then lines[0]
    else lines[0] + "\n" + Join(lines[1..])
  }

  /** Every triple is about the signature node or its explanation node. */
  predicate AboutSignature(ext: Externals, sig: ViolationSignature, ts: set<Triple>) {
    forall t :: t in ts ==> t.subject == SignatureUri(ext, sig) || t.subject == ExplanationUri(ext, sig)
  }

  /** The only `hasExplanation` link in `ts` is the signature's own, and only the signature node is typed as one. */
  predicate OneLink(ext: Externals, sig: ViolationSignature, ts: set<Triple>) {
    && (forall t :: t in ts && t.property == HasExplanationProperty ==>
          t == Triple(SignatureUri(ext, sig), HasExplanationProperty, ExplanationUri(ext, sig)))
    && (forall t :: t in ts && t.property == RdfType && t.obj == Class(ViolationSignatureClass) ==>
          t.subject == SignatureUri(ext, sig))
  }

  /** The triples about the signature node, and the explanation node's type and link. */
  function SignatureTriples(ext: Externals, sig: ViolationSignature): (r: set<Triple>)
    ensures AboutSignature(ext, sig, r)
    ensures Triple(SignatureUri(ext, sig), RdfType, Class(ViolationSignatureClass)) in r
    ensures Triple(SignatureUri(ext, sig), HasExplanationProperty, ExplanationUri(ext, sig)) in r
    ensures OneLink(ext, sig, r)
  {
    var s := SignatureUri(ext, sig);
    var x := ExplanationUri(ext, sig);
    {Triple(s, RdfType, Class(ViolationSignatureClass)), Triple(x, RdfType, Class(ExplanationClass)),
     Triple(s, HasExplanationProperty, x)}
    + SignatureFields(ext, s, sig)
  }

  /**
    The signature's own fields on node `s`: the constraint id always, the path
    and the type when truthy, and the parameters as JSON when there are any.
   */
  function SignatureFields(ext: Externals, s: Term, sig: ViolationSignature): (r: set<Triple>)
    ensures forall t :: t in r ==> t.subject == s && SignatureField(t.property)
    ensures Triple(s, ConstraintComponentProperty, Lit(sig.constraintId)) in r
  {
    {Triple(s, ConstraintComponentProperty, Lit(sig.constraintId))}
    + (if Present(sig.propertyPath) then {Triple(s, PropertyPathProperty, Lit(sig.propertyPath.value))} else {})
    + (if Present(sig.violationType) then {Triple(s, ViolationTypeProperty, Lit(sig.violationType.value))} else {})
    + (if sig.constraintParams != []
       then {Triple(s, ConstraintParamsProperty, Lit(ext.dumps(JObj(ParamsToDict(sig.constraintParams)))))}
       else {})
  }

  /** The predicates of the signature node's own fields. */
  predicate SignatureField(p: Property) {
    p == ConstraintComponentProperty || p == PropertyPathProperty || p == ViolationTypeProperty
    || p == ConstraintParamsProperty
  }

  /** The predicates whose objects are plain text. */
  predicate TextField(p: Property) {
    p == NaturalLanguageTextProperty || p == CorrectionSuggestionsProperty || p == ProvidedByModelProperty
  }

  /** The predicates whose objects are JSON text. */
  predicate JsonField(p: Property) {
    p == ViolationProperty || p == JustificationTreeProperty || p == RetrievedContextProperty
  }

  /** The text triples: explanation, joined suggestions and model id, each only when truthy. */
  function TextTriples(ext: Externals, sig: ViolationSignature, e: ExplanationOutput): (r: set<Triple>)
    ensures forall t :: t in r ==> t.subject == ExplanationUri(ext, sig) && TextField(t.property)
  {
    var x := ExplanationUri(ext, sig);
    (if Present(e.naturalLanguageExplanation)
     then {Triple(x, NaturalLanguageTextProperty, Lit(e.naturalLanguageExplanation.value))} else {})
    + (if e.correctionSuggestions.Some? && e.correctionSuggestions.value != []
       then {Triple(x, CorrectionSuggestionsProperty, Lit(Join(e.correctionSuggestions.value)))} else {})
    + (if Present(e.providedByModel)
       then {Triple(x, ProvidedByModelProperty, Lit(e.providedByModel.value))} else {})
  }

  /** One JSON-valued triple, when the part is present; the part's `to_dict` may fail. */
  function JsonTriple(ext: Externals, x: Term, p: Property, part: Option<Result<Json>>): (r: Result<set<Triple>>)
    ensures r.Success? <==> (part.Some? ==> part.value.Success?)
    ensures r.Success? ==> forall t :: t in r.value ==> t.subject == x && t.property == p
  {
    match part
    case None => Success({})
    case Some(Failure(err)) => Failure(err)
    case Some(Success(j)) => Success({Triple(x, p, Lit(ext.dumps(j)))})
  }

  function ViolationPart(e: ExplanationOutput): Option<Result<Json>> {
    match e.violation
    case None => None
    case Some(v) => Some(ViolationToDict(v))
  }

  function TreePart(e: ExplanationOutput): Option<Result<Json>> {
    match e.justificationTree
    case None => None
    case Some(t) => Some(TreeToDict(t))
  }

  function ContextPart(e: ExplanationOutput): Option<Result<Json>> {
    match e.retrievedContext
    case None => None
    case Some(c) => Some(Success(ContextToDict(c)))
  }

  /** The graph after `add_violation`, and the exception it raised, if any. */
  datatype AddOutcome = AddOutcome(graph: set<Triple>, raised: Option<Error>)

  /**
    The JSON of the violation, the tree and the context, in that order, each
    only when present. A `to_dict` that raises stops the writing there, and
    what was written before it stays.
   */
  function JsonWrites(ext: Externals, x: Term, e: ExplanationOutput): (r: AddOutcome)
    ensures forall t :: t in r.graph ==> t.subject == x && JsonField(t.property)
    ensures r.raised.None? <==> Serialisable(e)
  {
    match JsonTriple(ext, x, ViolationProperty, ViolationPart(e))
    case Failure(err) => AddOutcome({}, Some(err))
    case Success(violationTriples) =>
      match JsonTriple(ext, x, JustificationTreeProperty, TreePart(e))
      case Failure(err) => AddOutcome(violationTriples, Some(err))
      case Success(treeTriples) =>
        var contextTriples := JsonTriple(ext, x, RetrievedContextProperty, ContextPart(e)).value;
        AddOutcome(violationTriples + treeTriples + contextTriples, None)
  }

  /**
    What `add_violation` writes for a signature not yet in the graph: the
    signature's triples, then the text triples, then the JSON parts.
   */
  function Writes(ext: Externals, sig: ViolationSignature, e: ExplanationOutput): (r: AddOutcome)
    ensures SignatureTriples(ext, sig) + TextTriples(ext, sig, e) <= r.graph
    ensures AboutSignature(ext, sig, r.graph)
    ensures OneLink(ext, sig, r.graph)
    ensures r.raised.None? <==> Serialisable(e)
  {
    var signature := SignatureTriples(ext, sig);
    var text := TextTriples(ext, sig, e);
    var json := JsonWrites(ext, ExplanationUri(ext, sig), e);
    FieldsKeepShape(ext, sig, signature, text + json.graph);
    AddOutcome(signature + text + json.graph, json.raised)
  }

  /** Adding explanation fields to the signature triples keeps them about the signature, with one link. */
  lemma FieldsKeepShape(ext: Externals, sig: ViolationSignature, signature: set<Triple>, fields: set<Triple>)
    requires AboutSignature(ext, sig, signature) && OneLink(ext, sig, signature)
    requires forall t :: t in fields ==>
               t.subject == ExplanationUri(ext, sig) && (TextField(t.property) || JsonField(t.property))
    ensures AboutSignature(ext, sig, signature + fields)
    ensures OneLink(ext, sig, signature + fields)
  {
  }

  /**
    `add_violation`: a no-op for a signature already typed in the graph (the
    first writer wins); otherwise the graph gains what `Writes` writes.
   */
  function AddViolation(ext: Externals, g: set<Triple>, sig: ViolationSignature, e: ExplanationOutput): (r: AddOutcome)
    ensures HasViolation(ext, g, sig) ==> r == AddOutcome(g, None)
    ensures HasViolation(ext, r.graph, sig)
    ensures g <= r.graph
    ensures forall t :: t in r.graph && t !in g ==>
              t.subject == SignatureUri(ext, sig) || t.subject == ExplanationUri(ext, sig)
    ensures r.raised.None? <==> HasViolation(ext, g, sig) || Serialisable(e)
    ensures Triple(SignatureUri(ext, sig), HasExplanationProperty, ExplanationUri(ext, sig)) in r.graph
              || HasViolation(ext, g, sig)
  {
    if HasViolation(ext, g, sig) then AddOutcome(g, None)
    else
      var w := Writes(ext, sig, e);
      AddOutcome(g + w.graph, w.raised)
  }

  // ---------------------------------------------------------------------------
  // get_explanation
  // ---------------------------------------------------------------------------

  /** A JSON-valued entry read back: `decode(json.loads(str(data))) if data else None`. */
  function DecodeStored<T>(ext: Externals, data: Option<Term>, decode: Json -> Result<T>): Result<Option<T>> {
    if TruthyTerm(data) then
      var j :- ext.loads(Text(data.value));
      var v :- decode(j);
      Success(Some(v))
    else Success(None)
  }

  /** The root of a stored tree: `JustificationNode.from_dict(tree_dict["justification"])`. */
  function StoredRoot(j: Json): Result<JustificationNode> {
    var d :- AsMapping(j);
    var root :- Index(d, "justification");
    NodeFromDict(root)
  }

  /** A text entry read back: `str(term) if term else None`. */
  function OptionalText(o: Option<Term>): Option<string> {
    if TruthyTerm(o) then Some(Text(o.value)) else None
  }

  /**
    `get_explanation`: follow `hasExplanation` from the signature URI, raising
    when there is no link, then read each field off the explanation node. The
    tree is rebuilt from the stored root and the violation read back here.
   */
  ghost function GetExplanation(ext: Externals, g: set<Triple>, sig: ViolationSignature): (r: Result<ExplanationOutput>)
    ensures Objects(g, SignatureUri(ext, sig), HasExplanationProperty) == {} ==> r == Failure(NoExplanation)
    ensures r.Success? ==> Objects(g, SignatureUri(ext, sig), HasExplanationProperty) != {}
    ensures r.Success? ==> r.value.correctionSuggestions.Some? && |r.value.correctionSuggestions.value| <= 1
    ensures r.Success? && r.value.justificationTree.Some? ==>
              r.value.justificationTree.value.violation == r.value.violation
  {
    var x :-
      match Value(g, SignatureUri(ext, sig), HasExplanationProperty)
      case None => Failure(NoExplanation)
      case Some(t) => Success(t);
    var suggestions := Value(g, x, CorrectionSuggestionsProperty);
    var violation :- DecodeStored(ext, Value(g, x, ViolationProperty), ViolationFromDict);
    var root :- DecodeStored(ext, Value(g, x, JustificationTreeProperty), StoredRoot);
    var context :- DecodeStored(ext, Value(g, x, RetrievedContextProperty), ContextFromDict);
    Success(ExplanationOutput(
      OptionalText(Value(g, x, NaturalLanguageTextProperty)),
      Some(if TruthyTerm(suggestions) then [Text(suggestions.value)] else []),
      violation,
      match root
      case None => None
      case Some(n) => Some(JustificationTree(n, violation)),
      context,
      OptionalText(Value(g, x, ProvidedByModelProperty))))
  }
}
