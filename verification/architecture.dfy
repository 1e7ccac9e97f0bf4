/**
  The data classes of the explanation pipeline and their dictionary
  serialisers: `ViolationType`, `ConstraintViolation`, `JustificationNode`,
  `JustificationTree`, `DomainContext` and `ExplanationOutput`, each with the
  `to_dict` it writes and the `from_dict` it reads back.

  A field the source declares `Optional[...]` is an `Option`; a list field a
  `from_dict` may fill with None is an `Option<seq<...>>`. Every decoder returns
  a `Result` whose error names the exception the source would raise.
 */
module Architecture {
  import opened Results
  import opened JsonValues

  // ---------------------------------------------------------------------------
  // ViolationType
  // ---------------------------------------------------------------------------

  /** The seven kinds of SHACL violation the pipeline distinguishes. */
  datatype ViolationType =
    | Cardinality
    | ValueType
    | ValueRange
    | Pattern
    | PropertyPair
    | Logical
    | Other

  /** The enum member's string value, which is what a violation serialises. */
  function TypeValue(t: ViolationType): string {
    match t
    case Cardinality => "cardinality"
    case ValueType => "value_type"
    case ValueRange => "value_range"
    case Pattern => "pattern"
    case PropertyPair => "property_pair"
    case Logical => "logical"
    case Other => "other"
  }

  /** `ViolationType(raw)`: look a member up by its value. */
  function ParseViolationType(raw: Json): (r: Result<ViolationType>)
    ensures r.Success? ==> raw == JStr(TypeValue(r.value))
    ensures r.Failure? ==> r.error == InvalidEnumValue
    ensures r.Failure? ==> forall t :: raw != JStr(TypeValue(t))
  {
    match raw
    case JStr(s) =>
      if s == "cardinality" then Success(Cardinality)
      else if s == "value_type" then Success(ValueType)
      else if s == "value_range" then Success(ValueRange)
      else if s == "pattern" then Success(Pattern)
      else if s == "property_pair" then Success(PropertyPair)
      else if s == "logical" then Success(Logical)
      else if s == "other" then Success(Other)
      else Failure(InvalidEnumValue)
    case _ => Failure(InvalidEnumValue)
  }

  /** The member values are pairwise distinct, so a value names one member. */
  lemma TypeValuesDistinct(a: ViolationType, b: ViolationType)
    ensures TypeValue(a) == TypeValue(b) <==> a == b
  {
  }

  /** `ViolationType(t.value) == t`. */
  lemma TypeValueRoundTrip(t: ViolationType)
    ensures ParseViolationType(JStr(TypeValue(t))) == Success(t)
  {
  }

  // ---------------------------------------------------------------------------
  // ConstraintViolation
  // ---------------------------------------------------------------------------

  /**
    One SHACL constraint violation. `violationType` is None only for a record
    read back from a dict without a (truthy) `violation_type`; `context` is the
    source's untyped `Dict`, kept as whatever JSON value it holds.
   */
  datatype ConstraintViolation = ConstraintViolation(
    focusNode: string,
    shapeId: string,
    constraintId: string,
    violationType: Option<ViolationType>,
    propertyPath: Option<string>,
    value: Option<string>,
    message: Option<string>,
    severity: Option<string>,
    context: Json)

  /** `ConstraintViolation.to_dict`: fails when there is no violation type to take `.value` of. */
  function ViolationToDict(v: ConstraintViolation): (r: Result<Json>)
    ensures r.Success? <==> v.violationType.Some?
    ensures r.Failure? ==> r.error == NoAttribute("value")
    ensures r.Success? ==> r.value.JObj? && Truthy(r.value)
    ensures r.Success? ==> Get(r.value.fields, "violation_type") == JStr(TypeValue(v.violationType.value))
  {
    match v.violationType
    case None => Failure(NoAttribute("value"))
    case Some(t) =>
      var d := map[
        "focus_node" := JStr(v.focusNode),
        "shape_id" := JStr(v.shapeId),
        "constraint_id" := JStr(v.constraintId),
        "violation_type" := JStr(TypeValue(t)),
        "property_path" := OptStringToJson(v.propertyPath),
        "value" := OptStringToJson(v.value),
        "message" := OptStringToJson(v.message),
        "severity" := OptStringToJson(v.severity),
        "context" := v.context];
      assert "focus_node" in d;
      Success(JObj(d))
  }

  /** The `violation_type` entry read back: None when falsy, else the member it names. */
  function OptionalViolationType(raw: Json): (r: Result<Option<ViolationType>>)
    ensures !Truthy(raw) ==> r == Success(None)
    ensures Truthy(raw) ==> (r.Success? <==> exists t :: raw == JStr(TypeValue(t)))
    ensures r.Success? && r.value.Some? ==> raw == JStr(TypeValue(r.value.value))
    ensures r.Failure? ==> r.error == InvalidEnumValue
  {
    if Truthy(raw) then
      var t :- ParseViolationType(raw);
      Success(Some(t))
    else Success(None)
  }

  /** `data[key]` read into a field annotated `str`. */
  function RequiredString(d: map<string, Json>, key: string): (r: Result<string>)
    ensures r.Success? <==> key in d && d[key].JStr?
    ensures r.Success? ==> d[key] == JStr(r.value)
    ensures key !in d ==> r == Failure(KeyError(key))
  {
    var j :- Index(d, key);
    AsString(key, j)
  }

  /** `data.get(key)` read into a field annotated `Optional[str]`. */
  function OptionalString(d: map<string, Json>, key: string): (r: Result<Option<string>>)
    ensures key !in d ==> r == Success(None)
    ensures r.Success? ==> OptStringToJson(r.value) == Get(d, key)
  {
    AsOptString(key, Get(d, key))
  }

  /** The dicts `ConstraintViolation.from_dict` accepts, stated key by key. */
  predicate IsViolationDict(d: map<string, Json>) {
    && (Truthy(Get(d, "violation_type")) ==> exists t :: Get(d, "violation_type") == JStr(TypeValue(t)))
    && "focus_node" in d && d["focus_node"].JStr?
    && "shape_id" in d && d["shape_id"].JStr?
    && "constraint_id" in d && d["constraint_id"].JStr?
    && (Get(d, "property_path").JNull? || Get(d, "property_path").JStr?)
    && (Get(d, "value").JNull? || Get(d, "value").JStr?)
    && (Get(d, "message").JNull? || Get(d, "message").JStr?)
    && (Get(d, "severity").JNull? || Get(d, "severity").JStr?)
  }

  /** `ConstraintViolation.from_dict`. */
  function ViolationFromDict(data: Json): (r: Result<ConstraintViolation>)
    ensures r.Success? <==> data.JObj? && IsViolationDict(data.fields)
    ensures !data.JObj? ==> r == Failure(NotAMapping)
    ensures (data.JObj? && Truthy(Get(data.fields, "violation_type"))
              && (forall t :: Get(data.fields, "violation_type") != JStr(TypeValue(t))))
              ==> r == Failure(InvalidEnumValue)
    ensures (data.JObj? && OptionalViolationType(Get(data.fields, "violation_type")).Success?
              && "focus_node" !in data.fields)
              ==> r == Failure(KeyError("focus_node"))
    ensures r.Success? ==>
              && data.fields["focus_node"] == JStr(r.value.focusNode)
              && data.fields["shape_id"] == JStr(r.value.shapeId)
              && data.fields["constraint_id"] == JStr(r.value.constraintId)
              && OptStringToJson(r.value.propertyPath) == Get(data.fields, "property_path")
              && OptStringToJson(r.value.value) == Get(data.fields, "value")
              && OptStringToJson(r.value.message) == Get(data.fields, "message")
              && OptStringToJson(r.value.severity) == Get(data.fields, "severity")
              && r.value.context == GetOr(data.fields, "context", JObj(map[]))
    ensures r.Success? ==>
              (r.value.violationType.None? <==> !Truthy(Get(data.fields, "violation_type")))
    ensures r.Success? && r.value.violationType.Some? ==>
              Get(data.fields, "violation_type") == JStr(TypeValue(r.value.violationType.value))
  {
    var d :- AsMapping(data);
    var violationType :- OptionalViolationType(Get(d, "violation_type"));
    var focusNode :- RequiredString(d, "focus_node");
    var shapeId :- RequiredString(d, "shape_id");
    var constraintId :- RequiredString(d, "constraint_id");
    var propertyPath :- OptionalString(d, "property_path");
    var value :- OptionalString(d, "value");
    var message :- OptionalString(d, "message");
    var severity :- OptionalString(d, "severity");
    Success(ConstraintViolation(focusNode, shapeId, constraintId, violationType,
                                propertyPath, value, message, severity,
                                GetOr(d, "context", JObj(map[]))))
  }

  // ---------------------------------------------------------------------------
  // JustificationNode
  // ---------------------------------------------------------------------------

  /** A node of a justification tree; `kind` is the source's `type` field. */
  datatype JustificationNode = JustificationNode(
    statement: string,
    kind: string,
    evidence: Option<string>,
    children: seq<JustificationNode>)

  /**
    `JustificationNode.add_child`: the node with `child` appended to its
    children. Nodes are values, so this returns a new node rather than
    appending in place; a node can never contain itself.
   */
  function AddChild(n: JustificationNode, child: JustificationNode): (r: JustificationNode)
    ensures |r.children| == |n.children| + 1
    ensures r.children[..|n.children|] == n.children
    ensures r.children[|n.children|] == child
    ensures r.statement == n.statement && r.kind == n.kind && r.evidence == n.evidence
  {
    n.(children := n.children + [child])
  }

  /** `JustificationNode.to_dict`, recursively over the children. */
  function NodeToDict(n: JustificationNode): (r: Json)
    ensures r.JObj? && "children" in r.fields && r.fields["children"].JArr?
    ensures |r.fields["children"].items| == |n.children|
  {
    JObj(map[
      "statement" := JStr(n.statement),
      "type" := JStr(n.kind),
      "evidence" := OptStringToJson(n.evidence),
      "children" := JArr(seq(|n.children|, i requires 0 <= i < |n.children| => NodeToDict(n.children[i])))])
  }

  /**
    `JustificationNode.from_dict`. The source reads the children with
    `data.get("children",)`, whose default is None, so a dict without
    "children" fails when the comprehension iterates that None; `corrected`
    selects the evidently intended default of an empty list instead.
   */
  function NodeFromDictAs(data: Json, corrected: bool): (r: Result<JustificationNode>)
    decreases data, 1
    ensures !data.JObj? ==> r == Failure(NotAMapping)
    ensures r.Success? ==>
              && data.JObj?
              && "statement" in data.fields && data.fields["statement"] == JStr(r.value.statement)
              && "type" in data.fields && data.fields["type"] == JStr(r.value.kind)
              && OptStringToJson(r.value.evidence) == Get(data.fields, "evidence")
    ensures r.Success? && !corrected ==> "children" in data.fields
    ensures r.Success? && "children" !in data.fields ==> r.value.children == []
  {
    var d :- AsMapping(data);
    var statement :- RequiredString(d, "statement");
    var kind :- RequiredString(d, "type");
    var evidence :- OptionalString(d, "evidence");
    var children :-
      if "children" in d then ChildrenFromJson(d["children"], corrected)
      else if corrected then Success([])
      else Failure(NotIterable);
    Success(JustificationNode(statement, kind, evidence, children))
  }

  /**
    The children comprehension over whatever value "children" holds. Iterating
    a string or dict yields strings, which `from_dict` cannot subscript, so only
    an empty one gives no children; None, booleans and numbers are not iterable.
   */
  function ChildrenFromJson(j: Json, corrected: bool): (r: Result<seq<JustificationNode>>)
    decreases j, 0
  {
    match j
    case JArr(items) => NodesFromList(items, corrected)
    case JStr(s) => if s == "" then Success([]) else Failure(NotAMapping)
    case JObj(m) => if m == map[] then Success([]) else Failure(NotAMapping)
    case _ => Failure(NotIterable)
  }

  /** Decodes each item of a list, in order, stopping at the first failure. */
  function NodesFromList(items: seq<Json>, corrected: bool): (r: Result<seq<JustificationNode>>)
    decreases items, 2
  {
    if items == [] then Success([])
    else
      var first :- NodeFromDictAs(items[0], corrected);
      var rest :- NodesFromList(items[1..], corrected);
      Success([first] + rest)
  }

  /** `JustificationNode.from_dict` as the source writes it. */
  function NodeFromDict(data: Json): (r: Result<JustificationNode>)
    ensures (data.JObj? && "statement" in data.fields && "type" in data.fields
              && data.fields["statement"].JStr? && data.fields["type"].JStr?
              && (Get(data.fields, "evidence").JNull? || Get(data.fields, "evidence").JStr?)
              && "children" !in data.fields)
              ==> r == Failure(NotIterable)
    ensures !data.JObj? ==> r == Failure(NotAMapping)
    ensures r.Success? ==> data.JObj? && "children" in data.fields
    ensures r.Success? ==> "statement" in data.fields && JStr(r.value.statement) == data.fields["statement"]
  {
    NodeFromDictAs(data, false)
  }

  /** `JustificationNode.from_dict` with `data.get("children", [])`. */
  function NodeFromDictCorrected(data: Json): (r: Result<JustificationNode>)
    ensures (data.JObj? && "statement" in data.fields && "type" in data.fields
              && data.fields["statement"].JStr? && data.fields["type"].JStr?
              && (Get(data.fields, "evidence").JNull? || Get(data.fields, "evidence").JStr?)
              && "children" !in data.fields)
              ==> r.Success? && r.value.children == []
    ensures !data.JObj? ==> r == Failure(NotAMapping)
  {
    NodeFromDictAs(data, true)
  }

  // ---------------------------------------------------------------------------
  // JustificationTree
  // ---------------------------------------------------------------------------

  /**
    A justification tree: its root and the violation it justifies. The source
    annotates `violation` as required, but `get_explanation` builds trees whose
    violation is None, so it is optional here.
   */
  datatype JustificationTree = JustificationTree(
    root: JustificationNode,
    violation: Option<ConstraintViolation>)

  /** `JustificationTree.to_dict`: the violation under "violation", the root under "justification". */
  function TreeToDict(t: JustificationTree): (r: Result<Json>)
    ensures r.Success? <==> t.violation.Some? && t.violation.value.violationType.Some?
    ensures t.violation.None? ==> r == Failure(NoAttribute("to_dict"))
    ensures r.Success? ==> r.value.JObj? && Truthy(r.value)
    ensures r.Success? ==> Get(r.value.fields, "justification") == NodeToDict(t.root)
    ensures r.Success? ==> Success(Get(r.value.fields, "violation")) == ViolationToDict(t.violation.value)
  {
    match t.violation
    case None => Failure(NoAttribute("to_dict"))
    case Some(v) =>
      var violation :- ViolationToDict(v);
      var d := map["violation" := violation, "justification" := NodeToDict(t.root)];
      assert "violation" in d;
      Success(JObj(d))
  }

  /**
    `JustificationTree.from_dict` as the source writes it: after decoding both
    parts it calls the constructor with the keyword `justification`, which is no
    field of the dataclass (the field is `root`), so it can never succeed.
   */
  function TreeFromDict(data: Json): (r: Result<JustificationTree>)
    ensures r.Failure?
    ensures (data.JObj? && "violation" in data.fields && "justification" in data.fields
              && ViolationFromDict(data.fields["violation"]).Success?
              && NodeFromDict(data.fields["justification"]).Success?)
              ==> r.error == UnexpectedKeyword("justification")
  {
    var d :- AsMapping(data);
    var violationData :- Index(d, "violation");
    var violation :- ViolationFromDict(violationData);
    var rootData :- Index(d, "justification");
    var root :- NodeFromDict(rootData);
    Failure(UnexpectedKeyword("justification"))
  }

  /** `JustificationTree.from_dict` with `root=` in place of `justification=`. */
  function TreeFromDictCorrected(data: Json): (r: Result<JustificationTree>)
    ensures r.Success? <==>
              && data.JObj? && "violation" in data.fields && "justification" in data.fields
              && ViolationFromDict(data.fields["violation"]).Success?
              && NodeFromDict(data.fields["justification"]).Success?
    ensures r.Success? ==>
              && Success(r.value.root) == NodeFromDict(data.fields["justification"])
              && r.value.violation.Some?
              && Success(r.value.violation.value) == ViolationFromDict(data.fields["violation"])
  {
    var d :- AsMapping(data);
    var violationData :- Index(d, "violation");
    var violation :- ViolationFromDict(violationData);
    var rootData :- Index(d, "justification");
    var root :- NodeFromDict(rootData);
    Success(JustificationTree(root, Some(violation)))
  }

  // ---------------------------------------------------------------------------
  // DomainContext
  // ---------------------------------------------------------------------------

  /** Context retrieved for a violation; each list is None when `from_dict` found no key. */
  datatype DomainContext = DomainContext(
    ontologyFragments: Option<seq<string>>,
    shapeDocumentation: Option<seq<string>>,
    similarCases: Option<seq<map<string, Json>>>,
    domainRules: Option<seq<string>>)

  /** The context a default-constructed `DomainContext()` holds: four empty lists. */
  function EmptyContext(): DomainContext {
    DomainContext(Some([]), Some([]), Some([]), Some([]))
  }

  /** `DomainContext.to_dict`. */
  function ContextToDict(c: DomainContext): (r: Json)
    ensures r.JObj? && Truthy(r)
    ensures Get(r.fields, "ontology_fragments") == OptStringsToJson(c.ontologyFragments)
    ensures Get(r.fields, "shape_documentation") == OptStringsToJson(c.shapeDocumentation)
    ensures Get(r.fields, "similar_cases") == OptMappingsToJson(c.similarCases)
    ensures Get(r.fields, "domain_rules") == OptStringsToJson(c.domainRules)
  {
    var d := map[
      "ontology_fragments" := OptStringsToJson(c.ontologyFragments),
      "shape_documentation" := OptStringsToJson(c.shapeDocumentation),
      "similar_cases" := OptMappingsToJson(c.similarCases),
      "domain_rules" := OptStringsToJson(c.domainRules)];
    assert "domain_rules" in d;
    JObj(d)
  }

  /**
    `DomainContext.from_dict`, reading each absent key as `missing`: the source
    writes `data.get(key,)`, i.e. `missing` is None, although the dataclass's
    own default for every field is an empty list.
   */
  function ContextFromDictWith(data: Json, missing: Json): (r: Result<DomainContext>)
  {
    var d :- AsMapping(data);
    var ontologyFragments :- AsOptStrings("ontology_fragments", GetOr(d, "ontology_fragments", missing));
    var shapeDocumentation :- AsOptStrings("shape_documentation", GetOr(d, "shape_documentation", missing));
    var similarCases :- AsOptMappings("similar_cases", GetOr(d, "similar_cases", missing));
    var domainRules :- AsOptStrings("domain_rules", GetOr(d, "domain_rules", missing));
    Success(DomainContext(ontologyFragments, shapeDocumentation, similarCases, domainRules))
  }

  /** `DomainContext.from_dict` as the source writes it. */
  function ContextFromDict(data: Json): (r: Result<DomainContext>)
    ensures !data.JObj? ==> r == Failure(NotAMapping)
    ensures r.Success? ==>
              && OptStringsToJson(r.value.ontologyFragments) == Get(data.fields, "ontology_fragments")
              && OptStringsToJson(r.value.shapeDocumentation) == Get(data.fields, "shape_documentation")
              && OptMappingsToJson(r.value.similarCases) == Get(data.fields, "similar_cases")
              && OptStringsToJson(r.value.domainRules) == Get(data.fields, "domain_rules")
  {
    ContextFromDictWith(data, JNull)
  }

  /** `DomainContext.from_dict` with `data.get(key, [])` for every key. */
  function ContextFromDictCorrected(data: Json): (r: Result<DomainContext>)
    ensures !data.JObj? ==> r == Failure(NotAMapping)
    ensures r.Success? ==>
              && OptStringsToJson(r.value.ontologyFragments) == GetOr(data.fields, "ontology_fragments", JArr([]))
              && OptStringsToJson(r.value.shapeDocumentation) == GetOr(data.fields, "shape_documentation", JArr([]))
              && OptMappingsToJson(r.value.similarCases) == GetOr(data.fields, "similar_cases", JArr([]))
              && OptStringsToJson(r.value.domainRules) == GetOr(data.fields, "domain_rules", JArr([]))
  {
    ContextFromDictWith(data, JArr([]))
  }

  // ---------------------------------------------------------------------------
  // ExplanationOutput
  // ---------------------------------------------------------------------------

  /**
    The full output for one violation. The explanation text is optional because
    `get_explanation` passes None for it; the correction suggestions are a list
    of strings, which is how the knowledge graph writes and reads them.
   */
  datatype ExplanationOutput = ExplanationOutput(
    naturalLanguageExplanation: Option<string>,
    correctionSuggestions: Option<seq<string>>,
    violation: Option<ConstraintViolation>,
    justificationTree: Option<JustificationTree>,
    retrievedContext: Option<DomainContext>,
    providedByModel: Option<string>)

  /** Whether `ExplanationOutput.to_dict` (and so `add_violation`) can serialise every part of `e`. */
  predicate Serialisable(e: ExplanationOutput) {
    && (e.violation.Some? ==> e.violation.value.violationType.Some?)
    && (e.justificationTree.Some? ==>
          e.justificationTree.value.violation.Some?
          && e.justificationTree.value.violation.value.violationType.Some?)
  }

  /** `ExplanationOutput.to_dict`. */
  function ExplanationToDict(e: ExplanationOutput): (r: Result<Json>)
    ensures r.Success? <==> Serialisable(e)
    ensures r.Success? ==> r.value.JObj?
    ensures r.Success? ==>
              && "natural_language_explanation" in r.value.fields
              && "provided_by_model" in r.value.fields
              && Get(r.value.fields, "natural_language_explanation") == OptStringToJson(e.naturalLanguageExplanation)
              && Get(r.value.fields, "correction_suggestions") == OptStringsToJson(e.correctionSuggestions)
              && Get(r.value.fields, "provided_by_model") == OptStringToJson(e.providedByModel)
    ensures r.Success? ==> (Truthy(Get(r.value.fields, "violation")) <==> e.violation.Some?)
    ensures r.Success? ==> (Truthy(Get(r.value.fields, "justification_tree")) <==> e.justificationTree.Some?)
    ensures r.Success? ==> (Truthy(Get(r.value.fields, "retrieved_context")) <==> e.retrievedContext.Some?)
    ensures r.Success? && e.violation.Some? ==>
              Success(Get(r.value.fields, "violation")) == ViolationToDict(e.violation.value)
    ensures r.Success? && e.justificationTree.Some? ==>
              Success(Get(r.value.fields, "justification_tree")) == TreeToDict(e.justificationTree.value)
    ensures r.Success? && e.retrievedContext.Some? ==>
              Get(r.value.fields, "retrieved_context") == ContextToDict(e.retrievedContext.value)
  {
    var violation :-
      match e.violation
      case None => Success(JNull)
      case Some(v) => ViolationToDict(v);
    var tree :-
      match e.justificationTree
      case None => Success(JNull)
      case Some(t) => TreeToDict(t);
    var context :=
      match e.retrievedContext
      case None => JNull
      case Some(c) => ContextToDict(c);
    Success(JObj(map[
      "violation" := violation,
      "justification_tree" := tree,
      "retrieved_context" := context,
      "natural_language_explanation" := OptStringToJson(e.naturalLanguageExplanation),
      "correction_suggestions" := OptStringsToJson(e.correctionSuggestions),
      "provided_by_model" := OptStringToJson(e.providedByModel)]))
  }

  /** A part `from_dict` decodes only when its entry is truthy; otherwise it is None. */
  function DecodeIfTruthy<T>(d: map<string, Json>, key: string, decode: Json -> Result<T>): (r: Result<Option<T>>)
    ensures !Truthy(Get(d, key)) ==> r == Success(None)
    ensures Truthy(Get(d, key)) ==> key in d
    ensures Truthy(Get(d, key)) && decode(d[key]).Success? ==> r == Success(Some(decode(d[key]).value))
    ensures Truthy(Get(d, key)) && decode(d[key]).Failure? ==> r == Failure(decode(d[key]).error)
  {
    if Truthy(Get(d, key)) then
      var x :- decode(d[key]);
      Success(Some(x))
    else Success(None)
  }

  /**
    `ExplanationOutput.from_dict`, with the decoders it uses for the tree and
    the context as parameters: the required keys are read with `data[...]`, the
    others with `data.get(...)`.
   */
  function ExplanationFromDictWith(
    data: Json,
    treeFromDict: Json -> Result<JustificationTree>,
    contextFromDict: Json -> Result<DomainContext>): (r: Result<ExplanationOutput>)
    ensures !data.JObj? ==> r == Failure(NotAMapping)
    ensures (data.JObj? && "natural_language_explanation" !in data.fields)
              ==> r == Failure(KeyError("natural_language_explanation"))
    ensures r.Success? ==> data.JObj? && "natural_language_explanation" in data.fields
                           && "provided_by_model" in data.fields
  {
    var d :- AsMapping(data);
    var nlText :- Index(d, "natural_language_explanation");
    var naturalLanguageExplanation :- AsOptString("natural_language_explanation", nlText);
    var correctionSuggestions :- AsOptStrings("correction_suggestions", Get(d, "correction_suggestions"));
    var violation :- DecodeIfTruthy(d, "violation", ViolationFromDict);
    var tree :- DecodeIfTruthy(d, "justification_tree", treeFromDict);
    var context :- DecodeIfTruthy(d, "retrieved_context", contextFromDict);
    var modelId :- Index(d, "provided_by_model");
    var providedByModel :- AsOptString("provided_by_model", modelId);
    Success(ExplanationOutput(naturalLanguageExplanation, correctionSuggestions, violation,
                              tree, context, providedByModel))
  }

  /** `ExplanationOutput.from_dict` as the source writes it. */
  function ExplanationFromDict(data: Json): (r: Result<ExplanationOutput>)
    ensures (data.JObj? && "natural_language_explanation" !in data.fields)
              ==> r == Failure(KeyError("natural_language_explanation"))
    ensures data.JObj? && Truthy(Get(data.fields, "justification_tree")) ==> r.Failure?
    ensures r.Success? ==> r.value.justificationTree.None?
  {
    ExplanationFromDictWith(data, TreeFromDict, ContextFromDict)
  }

  /** `ExplanationOutput.from_dict` over the corrected tree and context decoders. */
  function ExplanationFromDictCorrected(data: Json): (r: Result<ExplanationOutput>)
    ensures (data.JObj? && "natural_language_explanation" !in data.fields)
              ==> r == Failure(KeyError("natural_language_explanation"))
    ensures r.Success? ==> data.JObj? && "provided_by_model" in data.fields
  {
    ExplanationFromDictWith(data, TreeFromDictCorrected, ContextFromDictCorrected)
  }
}
