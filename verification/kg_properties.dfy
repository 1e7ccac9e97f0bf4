/**
  Properties of the violation knowledge graph across calls: the signature URI
  does not depend on the order the parameters were inserted in, a stored
  explanation reads back as `ReadBack` says, writing one signature leaves every
  other signature's lookups alone, and graphs built by `add_violation` from an
  empty graph keep every typed signature linked to its explanation.
 */
module KGProperties {
  import opened Results
  import opened JsonValues
  import opened Architecture
  import opened ParamOrder
  import opened ViolationKG
  import RoundTrips

  // ---------------------------------------------------------------------------
  // Reading single-valued properties
  // ---------------------------------------------------------------------------

  lemma ObjectsMember(g: set<Triple>, s: Term, p: Property, o: Term)
    ensures o in Objects(g, s, p) <==> Triple(s, p, o) in g
  {
    if o in Objects(g, s, p) {
      var t :| t in g && t.subject == s && t.property == p && t.obj == o;
      assert t == Triple(s, p, o);
    }
  }

  /** A property with exactly one object reads as that object. */
  lemma ValueOfSingle(g: set<Triple>, s: Term, p: Property, o: Term)
    requires forall o' :: Triple(s, p, o') in g <==> o' == o
    ensures Value(g, s, p) == Some(o)
  {
    ObjectsMember(g, s, p, o);
    var r := Value(g, s, p);
    ObjectsMember(g, s, p, r.value);
  }

  /** A property with no object reads as None. */
  lemma ValueOfNone(g: set<Triple>, s: Term, p: Property)
    requires forall o' :: Triple(s, p, o') !in g
    ensures Value(g, s, p) == None
  {
    var r := Value(g, s, p);
    if r.Some? {
      ObjectsMember(g, s, p, r.value);
    }
  }

  // ---------------------------------------------------------------------------
  // Signature URIs
  // ---------------------------------------------------------------------------

  /**
    Two signatures that differ at most in the order their parameters were
    inserted, with no dict nested in a parameter value (whose own insertion
    order `repr` would write out).
   */
  predicate SameUpToParamOrder(a: ViolationSignature, b: ViolationSignature) {
    && a.constraintId == b.constraintId
    && a.propertyPath == b.propertyPath
    && a.violationType == b.violationType
    && FlatParams(a.constraintParams) && FlatParams(b.constraintParams)
    && multiset(a.constraintParams) == multiset(b.constraintParams)
  }

  /** Every item of a dict is in the dict `ParamsToDict` builds, and nothing else is. */
  lemma {:induction false} ParamsToDictHolds(items: seq<Param>)
    requires DistinctKeys(items)
    ensures ParamsToDict(items).Keys == KeysOf(items)
    ensures forall i :: 0 <= i < |items| ==> ParamsToDict(items)[items[i].0] == items[i].1
  {
    if items != [] {
      var init := items[..|items| - 1];
      var last := items[|items| - 1];
      assert DistinctKeys(init) by {
        forall i, j | 0 <= i < j < |init|
          ensures init[i].0 != init[j].0
        {
          assert init[i] == items[i] && init[j] == items[j];
        }
      }
      ParamsToDictHolds(init);
      assert KeysOf(items) == KeysOf(init) + {last.0} by {
        forall k | k in KeysOf(items)
          ensures k in KeysOf(init) + {last.0}
        {
          var i :| 0 <= i < |items| && items[i].0 == k;
          if i < |items| - 1 {
            assert init[i].0 == k;
          }
        }
        forall k | k in KeysOf(init)
          ensures k in KeysOf(items)
        {
          var i :| 0 <= i < |init| && init[i].0 == k;
          assert items[i].0 == k;
        }
      }
      forall i | 0 <= i < |items|
        ensures ParamsToDict(items)[items[i].0] == items[i].1
      {
        if i < |items| - 1 {
          assert init[i] == items[i];
        }
      }
    }
  }

  /** A dict built from the same items in another order is the same dict. */
  lemma ParamsToDictIgnoresOrder(a: seq<Param>, b: seq<Param>)
    requires DistinctKeys(a) && DistinctKeys(b)
    requires multiset(a) == multiset(b)
    ensures ParamsToDict(a) == ParamsToDict(b)
  {
    ParamsToDictHolds(a);
    ParamsToDictHolds(b);
    SortItemsSpec(a);
    SortItemsSpec(b);
    SortIgnoresInsertionOrder(a, b);
    forall k | k in ParamsToDict(a)
      ensures ParamsToDict(a)[k] == ParamsToDict(b)[k]
    {
      var i :| 0 <= i < |a| && a[i].0 == k;
      assert a[i] in multiset(b);
      var j :| 0 <= j < |b| && b[j] == a[i];
    }
  }

  /**
    `signature_to_uri` sorts the parameter items, so two signatures that differ
    only in parameter insertion order (nested dicts aside) name the same node: `has_violation`,
    `get_explanation` and `add_violation` cannot tell them apart.
   */
  lemma SignatureUriIgnoresInsertionOrder(
    ext: Externals, g: set<Triple>, a: ViolationSignature, b: ViolationSignature, e: ExplanationOutput)
    requires SameUpToParamOrder(a, b)
    ensures SignatureUri(ext, a) == SignatureUri(ext, b)
    ensures HasViolation(ext, g, a) == HasViolation(ext, g, b)
    ensures GetExplanation(ext, g, a) == GetExplanation(ext, g, b)
    ensures AddViolation(ext, g, a, e) == AddViolation(ext, g, b, e)
  {
    SignatureNodeIgnoresInsertionOrder(ext, a, b);
    SameNodeSameOperations(ext, g, a, b, e);
  }

  /** Parameter insertion order (nested dicts aside) changes neither the signature URI nor the triples written about it. */
  lemma SignatureNodeIgnoresInsertionOrder(ext: Externals, a: ViolationSignature, b: ViolationSignature)
    requires SameUpToParamOrder(a, b)
    ensures SignatureUri(ext, a) == SignatureUri(ext, b)
    ensures SignatureTriples(ext, a) == SignatureTriples(ext, b)
  {
    SortIgnoresInsertionOrder(a.constraintParams, b.constraintParams);
    assert Canonical(a) == Canonical(b);
    ParamsToDictIgnoresOrder(a.constraintParams, b.constraintParams);
    assert SignatureFields(ext, SignatureUri(ext, a), a) == SignatureFields(ext, SignatureUri(ext, a), b);
  }

  /**
    The operations see a signature only through its URI and the triples
    written about it: two signatures that agree on both are interchangeable.
   */
  lemma SameNodeSameOperations(
    ext: Externals, g: set<Triple>, a: ViolationSignature, b: ViolationSignature, e: ExplanationOutput)
    requires SignatureUri(ext, a) == SignatureUri(ext, b)
    requires SignatureTriples(ext, a) == SignatureTriples(ext, b)
    ensures HasViolation(ext, g, a) == HasViolation(ext, g, b)
    ensures GetExplanation(ext, g, a) == GetExplanation(ext, g, b)
    ensures AddViolation(ext, g, a, e) == AddViolation(ext, g, b, e)
  {
    SameUriSameLookup(ext, g, a, b);
    assert ExplanationUri(ext, a) == ExplanationUri(ext, b);
    assert TextTriples(ext, a, e) == TextTriples(ext, b, e);
    assert Writes(ext, a, e) == Writes(ext, b, e);
  }

  /** `get_explanation` sees a signature only through its URI. */
  lemma SameUriSameLookup(ext: Externals, g: set<Triple>, a: ViolationSignature, b: ViolationSignature)
    requires SignatureUri(ext, a) == SignatureUri(ext, b)
    ensures GetExplanation(ext, g, a) == GetExplanation(ext, g, b)
  {
  }

  // ---------------------------------------------------------------------------
  // Reading back what add_violation wrote
  // ---------------------------------------------------------------------------

  /** The correction suggestions as `get_explanation` reads them back: one joined line, or none. */
  function SuggestionsReadBack(o: Option<seq<string>>): seq<string> {
    if o.Some? && o.value != [] && Join(o.value) != "" then [Join(o.value)] else []
  }

  /**
    The explanation `get_explanation` returns for one `add_violation` stored:
    empty texts come back as None, the suggestions as one joined line, and the
    tree carries the explanation's violation in place of its own.
   */
  function ReadBack(e: ExplanationOutput): ExplanationOutput {
    ExplanationOutput(
      if Present(e.naturalLanguageExplanation) then e.naturalLanguageExplanation else None,
      Some(SuggestionsReadBack(e.correctionSuggestions)),
      e.violation,
      match e.justificationTree
      case None => None
      case Some(t) => Some(JustificationTree(t.root, e.violation)),
      e.retrievedContext,
      if Present(e.providedByModel) then e.providedByModel else None)
  }

  /** No triple of the graph is about the signature node or its explanation node. */
  predicate Fresh(ext: Externals, g: set<Triple>, sig: ViolationSignature) {
    forall t :: t in g ==> t.subject != SignatureUri(ext, sig) && t.subject != ExplanationUri(ext, sig)
  }

  /** The JSON text `add_violation` stores for a part, when the part is present. */
  function StoredJson(ext: Externals, part: Option<Result<Json>>): Option<Term>
    requires part.Some? ==> part.value.Success?
  {
    if part.Some? then Some(Lit(ext.dumps(part.value.value))) else None
  }

  /** The object `add_violation` gives the explanation node under a property other than its type. */
  function StoredObject(ext: Externals, e: ExplanationOutput, p: Property): Option<Term>
    requires Serialisable(e)
  {
    if p == NaturalLanguageTextProperty then
      (if Present(e.naturalLanguageExplanation) then Some(Lit(e.naturalLanguageExplanation.value)) else None)
    else if p == CorrectionSuggestionsProperty then
      (if e.correctionSuggestions.Some? && e.correctionSuggestions.value != []
       then Some(Lit(Join(e.correctionSuggestions.value))) else None)
    else if p == ProvidedByModelProperty then
      (if Present(e.providedByModel) then Some(Lit(e.providedByModel.value)) else None)
    else if p == ViolationProperty then StoredJson(ext, ViolationPart(e))
    else if p == JustificationTreeProperty then StoredJson(ext, TreePart(e))
    else if p == RetrievedContextProperty then StoredJson(ext, ContextPart(e))
    else None
  }

  lemma TextTriplesAt(ext: Externals, sig: ViolationSignature, e: ExplanationOutput, p: Property, o: Term)
    requires Serialisable(e)
    ensures Triple(ExplanationUri(ext, sig), p, o) in TextTriples(ext, sig, e)
            <==> (p == NaturalLanguageTextProperty || p == CorrectionSuggestionsProperty || p == ProvidedByModelProperty)
                 && StoredObject(ext, e, p) == Some(o)
  {
  }

  lemma JsonTripleAt(ext: Externals, x: Term, q: Property, part: Option<Result<Json>>, p: Property, o: Term)
    requires part.Some? ==> part.value.Success?
    ensures Triple(x, p, o) in JsonTriple(ext, x, q, part).value <==> p == q && StoredJson(ext, part) == Some(o)
  {
  }

  /** A write to a fresh signature adds what `Writes` writes. */
  lemma AddFresh(ext: Externals, g: set<Triple>, sig: ViolationSignature, e: ExplanationOutput)
    requires Fresh(ext, g, sig)
    ensures AddViolation(ext, g, sig, e) == AddOutcome(g + Writes(ext, sig, e).graph, Writes(ext, sig, e).raised)
  {
    assert Triple(SignatureUri(ext, sig), RdfType, Class(ViolationSignatureClass)) !in g;
  }

  /** The signature part of a write gives the explanation node its type and the signature node its one link. */
  lemma SignatureTriplesAt(ext: Externals, sig: ViolationSignature, p: Property, o: Term)
    ensures Triple(ExplanationUri(ext, sig), p, o) in SignatureTriples(ext, sig)
            <==> p == RdfType && o == Class(ExplanationClass)
    ensures Triple(SignatureUri(ext, sig), HasExplanationProperty, o) in SignatureTriples(ext, sig)
            <==> o == ExplanationUri(ext, sig)
  {
  }

  /** Everything `add_violation` writes for an explanation whose parts all serialise. */
  lemma WritesWhole(ext: Externals, sig: ViolationSignature, e: ExplanationOutput)
    ensures Writes(ext, sig, e).graph
            == SignatureTriples(ext, sig) + TextTriples(ext, sig, e) + JsonWrites(ext, ExplanationUri(ext, sig), e).graph
  {
  }

  /** The JSON triples written for an explanation whose parts all serialise. */
  lemma JsonWritesWhole(ext: Externals, x: Term, e: ExplanationOutput)
    requires Serialisable(e)
    ensures JsonWrites(ext, x, e).graph
            == JsonTriple(ext, x, ViolationProperty, ViolationPart(e)).value
               + JsonTriple(ext, x, JustificationTreeProperty, TreePart(e)).value
               + JsonTriple(ext, x, RetrievedContextProperty, ContextPart(e)).value
  {
  }

  /** The JSON part of a write holds exactly the stored JSON objects. */
  lemma JsonWritesAt(ext: Externals, x: Term, e: ExplanationOutput, p: Property, o: Term)
    requires Serialisable(e)
    ensures Triple(x, p, o) in JsonWrites(ext, x, e).graph <==> JsonField(p) && StoredObject(ext, e, p) == Some(o)
  {
    JsonWritesWhole(ext, x, e);
    JsonTripleAt(ext, x, ViolationProperty, ViolationPart(e), p, o);
    JsonTripleAt(ext, x, JustificationTreeProperty, TreePart(e), p, o);
    JsonTripleAt(ext, x, RetrievedContextProperty, ContextPart(e), p, o);
  }

  /** A write gives the explanation node exactly the stored objects, besides its type. */
  lemma WritesAt(ext: Externals, sig: ViolationSignature, e: ExplanationOutput, p: Property, o: Term)
    requires Serialisable(e)
    requires p != RdfType
    ensures Triple(ExplanationUri(ext, sig), p, o) in Writes(ext, sig, e).graph <==> StoredObject(ext, e, p) == Some(o)
  {
    var x := ExplanationUri(ext, sig);
    WritesWhole(ext, sig, e);
    SignatureTriplesAt(ext, sig, p, o);
    TextTriplesAt(ext, sig, e, p, o);
    JsonWritesAt(ext, x, e, p, o);
  }

  /** After a write to a fresh signature, the explanation node holds exactly the stored objects. */
  lemma TripleAtExplanation(ext: Externals, g: set<Triple>, sig: ViolationSignature, e: ExplanationOutput, p: Property, o: Term)
    requires Fresh(ext, g, sig) && Serialisable(e)
    requires p != RdfType
    ensures Triple(ExplanationUri(ext, sig), p, o) in AddViolation(ext, g, sig, e).graph
            <==> StoredObject(ext, e, p) == Some(o)
  {
    AddFresh(ext, g, sig, e);
    assert Triple(ExplanationUri(ext, sig), p, o) !in g;
    WritesAt(ext, sig, e, p, o);
  }

  /** After a write to a fresh signature, each property of the explanation node reads as stored. */
  lemma ValueAtExplanation(ext: Externals, g: set<Triple>, sig: ViolationSignature, e: ExplanationOutput, p: Property)
    requires Fresh(ext, g, sig) && Serialisable(e)
    requires p != RdfType
    ensures Value(AddViolation(ext, g, sig, e).graph, ExplanationUri(ext, sig), p) == StoredObject(ext, e, p)
  {
    var x := ExplanationUri(ext, sig);
    var G := AddViolation(ext, g, sig, e).graph;
    forall o
      ensures Triple(x, p, o) in G <==> StoredObject(ext, e, p) == Some(o)
    {
      TripleAtExplanation(ext, g, sig, e, p, o);
    }
    match StoredObject(ext, e, p)
    case None => ValueOfNone(G, x, p);
    case Some(o) => ValueOfSingle(G, x, p, o);
  }

  /**
    An explanation stored for a signature the graph has never seen reads back
    as `ReadBack` of it, given a JSON codec whose `loads` inverts `dumps`.
   */
  lemma AddThenGet(ext: Externals, g: set<Triple>, sig: ViolationSignature, e: ExplanationOutput)
    requires JsonCodec(ext)
    requires Fresh(ext, g, sig) && Serialisable(e)
    ensures AddViolation(ext, g, sig, e).raised == None
    ensures GetExplanation(ext, AddViolation(ext, g, sig, e).graph, sig) == Success(ReadBack(e))
  {
    var G := AddViolation(ext, g, sig, e).graph;
    LinkAfterAdd(ext, g, sig, e);
    StoredAfterAdd(ext, g, sig, e);
    ReadsStored(ext, G, sig, e);
  }

  /** After a write to a fresh signature, every field of the explanation node holds what was stored. */
  lemma StoredAfterAdd(ext: Externals, g: set<Triple>, sig: ViolationSignature, e: ExplanationOutput)
    requires Fresh(ext, g, sig) && Serialisable(e)
    ensures forall p :: p != RdfType ==>
              Value(AddViolation(ext, g, sig, e).graph, ExplanationUri(ext, sig), p) == StoredObject(ext, e, p)
  {
    forall p | p != RdfType
      ensures Value(AddViolation(ext, g, sig, e).graph, ExplanationUri(ext, sig), p) == StoredObject(ext, e, p)
    {
      ValueAtExplanation(ext, g, sig, e, p);
    }
  }

  /**
    A graph whose link and explanation node hold what `add_violation` stores
    for `e` gives `ReadBack(e)` to `get_explanation`.
   */
  lemma ReadsStored(ext: Externals, g: set<Triple>, sig: ViolationSignature, e: ExplanationOutput)
    requires JsonCodec(ext) && Serialisable(e)
    requires Value(g, SignatureUri(ext, sig), HasExplanationProperty) == Some(ExplanationUri(ext, sig))
    requires forall p :: p != RdfType ==> Value(g, ExplanationUri(ext, sig), p) == StoredObject(ext, e, p)
    ensures GetExplanation(ext, g, sig) == Success(ReadBack(e))
  {
    JsonFieldsRead(ext, g, ExplanationUri(ext, sig), e);
    TextFieldsRead(ext, g, ExplanationUri(ext, sig), e);
    GetExplanationReads(ext, g, sig, e.violation,
                        if e.justificationTree.Some? then Some(e.justificationTree.value.root) else None,
                        e.retrievedContext);
  }

  /** A node holding the JSON `add_violation` stores for `e` decodes to `e`'s violation, tree root and context. */
  lemma JsonFieldsRead(ext: Externals, g: set<Triple>, x: Term, e: ExplanationOutput)
    requires JsonCodec(ext) && Serialisable(e)
    requires forall p :: p != RdfType ==> Value(g, x, p) == StoredObject(ext, e, p)
    ensures DecodeStored(ext, Value(g, x, ViolationProperty), ViolationFromDict) == Success(e.violation)
    ensures DecodeStored(ext, Value(g, x, JustificationTreeProperty), StoredRoot)
            == Success(if e.justificationTree.Some? then Some(e.justificationTree.value.root) else None)
    ensures DecodeStored(ext, Value(g, x, RetrievedContextProperty), ContextFromDict) == Success(e.retrievedContext)
  {
    assert Value(g, x, ViolationProperty) == StoredJson(ext, ViolationPart(e));
    assert Value(g, x, JustificationTreeProperty) == StoredJson(ext, TreePart(e));
    assert Value(g, x, RetrievedContextProperty) == StoredJson(ext, ContextPart(e));
    StoredViolationReadBack(ext, e);
    StoredTreeReadBack(ext, e);
    StoredContextReadBack(ext, e);
  }

  /** A node holding the text `add_violation` stores for `e` reads back as `ReadBack(e)` says. */
  lemma TextFieldsRead(ext: Externals, g: set<Triple>, x: Term, e: ExplanationOutput)
    requires Serialisable(e)
    requires forall p :: p != RdfType ==> Value(g, x, p) == StoredObject(ext, e, p)
    ensures OptionalText(Value(g, x, NaturalLanguageTextProperty)) == ReadBack(e).naturalLanguageExplanation
    ensures OptionalText(Value(g, x, ProvidedByModelProperty)) == ReadBack(e).providedByModel
    ensures var suggestions := Value(g, x, CorrectionSuggestionsProperty);
            (if TruthyTerm(suggestions) then [Text(suggestions.value)] else [])
            == SuggestionsReadBack(e.correctionSuggestions)
  {
    assert Value(g, x, NaturalLanguageTextProperty) == StoredObject(ext, e, NaturalLanguageTextProperty);
    assert Value(g, x, ProvidedByModelProperty) == StoredObject(ext, e, ProvidedByModelProperty);
    assert Value(g, x, CorrectionSuggestionsProperty) == StoredObject(ext, e, CorrectionSuggestionsProperty);
  }

  /**
    `get_explanation` on a graph whose link is in place and whose JSON fields
    decode: the result is assembled from the fields as read.
   */
  lemma GetExplanationReads(
    ext: Externals, g: set<Triple>, sig: ViolationSignature,
    violation: Option<ConstraintViolation>, root: Option<JustificationNode>, context: Option<DomainContext>)
    requires Value(g, SignatureUri(ext, sig), HasExplanationProperty) == Some(ExplanationUri(ext, sig))
    requires DecodeStored(ext, Value(g, ExplanationUri(ext, sig), ViolationProperty), ViolationFromDict) == Success(violation)
    requires DecodeStored(ext, Value(g, ExplanationUri(ext, sig), JustificationTreeProperty), StoredRoot) == Success(root)
    requires DecodeStored(ext, Value(g, ExplanationUri(ext, sig), RetrievedContextProperty), ContextFromDict) == Success(context)
    ensures var x := ExplanationUri(ext, sig);
            var suggestions := Value(g, x, CorrectionSuggestionsProperty);
            GetExplanation(ext, g, sig) == Success(ExplanationOutput(
              OptionalText(Value(g, x, NaturalLanguageTextProperty)),
              Some(if TruthyTerm(suggestions) then [Text(suggestions.value)] else []),
              violation,
              match root
              case None => None
              case Some(n) => Some(JustificationTree(n, violation)),
              context,
              OptionalText(Value(g, x, ProvidedByModelProperty))))
  {
  }

  /** After a write to a fresh signature, the signature node links to its own explanation node and nowhere else. */
  lemma LinkTripleAfterAdd(ext: Externals, g: set<Triple>, sig: ViolationSignature, e: ExplanationOutput, o: Term)
    requires Fresh(ext, g, sig)
    ensures Triple(SignatureUri(ext, sig), HasExplanationProperty, o) in AddViolation(ext, g, sig, e).graph
            <==> o == ExplanationUri(ext, sig)
  {
    var s := SignatureUri(ext, sig);
    var x := ExplanationUri(ext, sig);
    AddFresh(ext, g, sig, e);
    assert Triple(s, HasExplanationProperty, o) !in g;
    WritesWhole(ext, sig, e);
    SignatureTriplesAt(ext, sig, HasExplanationProperty, o);
    assert Triple(s, HasExplanationProperty, o) !in TextTriples(ext, sig, e);
    assert Triple(s, HasExplanationProperty, o) !in JsonWrites(ext, x, e).graph;
  }

  /** After a write to a fresh signature, its `hasExplanation` link is the only one. */
  lemma LinkAfterAdd(ext: Externals, g: set<Triple>, sig: ViolationSignature, e: ExplanationOutput)
    requires Fresh(ext, g, sig)
    ensures Value(AddViolation(ext, g, sig, e).graph, SignatureUri(ext, sig), HasExplanationProperty)
            == Some(ExplanationUri(ext, sig))
  {
    var s := SignatureUri(ext, sig);
    var G := AddViolation(ext, g, sig, e).graph;
    forall o
      ensures Triple(s, HasExplanationProperty, o) in G <==> o == ExplanationUri(ext, sig)
    {
      LinkTripleAfterAdd(ext, g, sig, e, o);
    }
    ValueOfSingle(G, s, HasExplanationProperty, ExplanationUri(ext, sig));
  }

  lemma StoredViolationReadBack(ext: Externals, e: ExplanationOutput)
    requires JsonCodec(ext) && Serialisable(e)
    ensures DecodeStored(ext, StoredJson(ext, ViolationPart(e)), ViolationFromDict) == Success(e.violation)
  {
    if e.violation.Some? {
      RoundTrips.ViolationRoundTrip(e.violation.value);
      var j := ViolationToDict(e.violation.value).value;
      assert ext.loads(ext.dumps(j)) == Success(j) && ext.dumps(j) != "";
    }
  }

  lemma StoredTreeReadBack(ext: Externals, e: ExplanationOutput)
    requires JsonCodec(ext) && Serialisable(e)
    ensures DecodeStored(ext, StoredJson(ext, TreePart(e)), StoredRoot)
            == Success(if e.justificationTree.Some? then Some(e.justificationTree.value.root) else None)
  {
    if e.justificationTree.Some? {
      var t := e.justificationTree.value;
      var j := TreeToDict(t).value;
      assert ext.loads(ext.dumps(j)) == Success(j) && ext.dumps(j) != "";
      assert "justification" in j.fields;
      RoundTrips.NodeFromDictRoundTrip(t.root);
    }
  }

  lemma StoredContextReadBack(ext: Externals, e: ExplanationOutput)
    requires JsonCodec(ext) && Serialisable(e)
    ensures DecodeStored(ext, StoredJson(ext, ContextPart(e)), ContextFromDict) == Success(e.retrievedContext)
  {
    if e.retrievedContext.Some? {
      var j := ContextToDict(e.retrievedContext.value);
      assert ext.loads(ext.dumps(j)) == Success(j) && ext.dumps(j) != "";
      RoundTrips.ContextRoundTrip(e.retrievedContext.value);
    }
  }

  // ---------------------------------------------------------------------------
  // What the readback loses
  // ---------------------------------------------------------------------------

  /** Joining gives empty text exactly for no lines or one empty line. */
  lemma JoinEmpty(lines: seq<string>)
    ensures Join(lines) == "" <==> lines == [] || lines == [""]
  {
    if |lines| >= 2 {
      assert |Join(lines)| >= |"\n"|;
    }
  }

  /** The explanations that `get_explanation` gives back unchanged after `add_violation`. */
  predicate ReadsBackExactly(e: ExplanationOutput) {
    && e.naturalLanguageExplanation != Some("")
    && e.providedByModel != Some("")
    && e.correctionSuggestions.Some?
    && (e.correctionSuggestions.value == []
        || (|e.correctionSuggestions.value| == 1 && e.correctionSuggestions.value[0] != ""))
    && (e.justificationTree.Some? ==> e.justificationTree.value.violation == e.violation)
  }

  /**
    The readback is lossless exactly for `ReadsBackExactly` explanations: an
    empty text turns into None, a missing suggestion list into [], several
    suggestions into one joined line, and a tree's own violation into the
    explanation's.
   */
  lemma ReadBackExactlyWhen(e: ExplanationOutput)
    ensures ReadBack(e) == e <==> ReadsBackExactly(e)
  {
    var o := e.correctionSuggestions;
    if o.Some? {
      JoinEmpty(o.value);
    }
    if ReadBack(e) == e {
      assert o == Some(SuggestionsReadBack(o));
      assert |o.value| <= 1;
      if e.justificationTree.Some? {
        assert ReadBack(e).justificationTree.value.violation == e.violation;
      }
    }
    if ReadsBackExactly(e) {
      if |o.value| == 1 {
        assert [o.value[0]] == o.value;
      }
      if e.justificationTree.Some? {
        var t := e.justificationTree.value;
        assert JustificationTree(t.root, e.violation) == t;
      }
    }
  }

  // ---------------------------------------------------------------------------
  // Other signatures are left alone
  // ---------------------------------------------------------------------------

  /** `hexdigest()` of MD5 is always 32 characters. */
  ghost predicate DigestWidth(ext: Externals) {
    forall c :: |ext.md5Hex(c)| == 32
  }

  /**
    Every `hasExplanation` link runs from an IRI to that IRI plus "_explanation",
    and every signature typed in the graph has its link.
   */
  predicate Linked(g: set<Triple>) {
    && (forall t :: t in g && t.property == HasExplanationProperty ==>
          t.subject.Iri? && t.obj == Iri(t.subject.iri + "_explanation"))
    && (forall t :: t in g && t.property == RdfType && t.obj == Class(ViolationSignatureClass) ==>
          t.subject.Iri? && Triple(t.subject, HasExplanationProperty, Iri(t.subject.iri + "_explanation")) in g)
  }

  /** With fixed-width digests no explanation node is a signature node, and distinct signature nodes have distinct explanation nodes. */
  lemma NodesApart(ext: Externals, a: ViolationSignature, b: ViolationSignature)
    requires DigestWidth(ext)
    ensures ExplanationUri(ext, a) != SignatureUri(ext, b)
    ensures SignatureUri(ext, a) != SignatureUri(ext, b) ==> ExplanationUri(ext, a) != ExplanationUri(ext, b)
  {
    var sa := SignatureUri(ext, a).iri;
    var sb := SignatureUri(ext, b).iri;
    assert |ExplanationUri(ext, a).iri| != |sb|;
    assert |sa| == |sb|;
    assert ExplanationUri(ext, a).iri[..|sa|] == sa;
    assert ExplanationUri(ext, b).iri[..|sb|] == sb;
  }

  /** Triples added only about other subjects leave a subject's objects alone. */
  lemma ObjectsFrame(g: set<Triple>, h: set<Triple>, s: Term, p: Property)
    requires g <= h
    requires forall t :: t in h && t !in g ==> t.subject != s
    ensures Objects(h, s, p) == Objects(g, s, p)
  {
    forall o
      ensures o in Objects(h, s, p) <==> o in Objects(g, s, p)
    {
      ObjectsMember(h, s, p, o);
      ObjectsMember(g, s, p, o);
    }
  }

  /**
    Adding one signature changes no other signature's `has_violation` or
    `get_explanation`, in a graph whose links are as `add_violation` writes them.
   */
  lemma AddKeepsOthers(ext: Externals, g: set<Triple>, sig: ViolationSignature, other: ViolationSignature, e: ExplanationOutput)
    requires DigestWidth(ext) && Linked(g)
    requires SignatureUri(ext, other) != SignatureUri(ext, sig)
    ensures HasViolation(ext, AddViolation(ext, g, sig, e).graph, other) == HasViolation(ext, g, other)
    ensures GetExplanation(ext, AddViolation(ext, g, sig, e).graph, other) == GetExplanation(ext, g, other)
  {
    var G := AddViolation(ext, g, sig, e).graph;
    var so := SignatureUri(ext, other);
    var xo := ExplanationUri(ext, other);
    NodesApart(ext, sig, other);
    NodesApart(ext, other, sig);
    forall p
      ensures Value(G, so, p) == Value(g, so, p) && Value(G, xo, p) == Value(g, xo, p)
    {
      ObjectsFrame(g, G, so, p);
      ObjectsFrame(g, G, xo, p);
    }
    var link := Value(g, so, HasExplanationProperty);
    if link.Some? {
      ObjectsMember(g, so, HasExplanationProperty, link.value);
    }
    SameReadsSameExplanation(ext, g, G, other);
  }

  /**
    After `add_violation`, `has_violation` holds for exactly the signatures it
    held for before and those sharing the added signature's URI.
   */
  lemma HasViolationAfterAdd(ext: Externals, g: set<Triple>, sig: ViolationSignature, other: ViolationSignature, e: ExplanationOutput)
    ensures HasViolation(ext, AddViolation(ext, g, sig, e).graph, other)
            <==> HasViolation(ext, g, other) || SignatureUri(ext, other) == SignatureUri(ext, sig)
  {
  }

  /**
    `size()` after `add_violation`: unchanged for a signature already typed,
    and larger for a new one, whose type triple is new.
   */
  lemma SizeAfterAdd(ext: Externals, g: set<Triple>, sig: ViolationSignature, e: ExplanationOutput)
    ensures HasViolation(ext, g, sig) ==> Size(AddViolation(ext, g, sig, e).graph) == Size(g)
    ensures !HasViolation(ext, g, sig) ==> Size(AddViolation(ext, g, sig, e).graph) > Size(g)
  {
    var G := AddViolation(ext, g, sig, e).graph;
    if !HasViolation(ext, g, sig) {
      var added := G - g;
      assert Triple(SignatureUri(ext, sig), RdfType, Class(ViolationSignatureClass)) in added;
      assert G == g + added;
      assert |G| == |g| + |added|;
    }
  }

  /**
    `get_explanation` reads only the signature's link and its explanation
    node's fields, so two graphs that agree on those give the same result.
   */
  lemma SameReadsSameExplanation(ext: Externals, g: set<Triple>, h: set<Triple>, sig: ViolationSignature)
    requires Value(h, SignatureUri(ext, sig), HasExplanationProperty) == Value(g, SignatureUri(ext, sig), HasExplanationProperty)
    requires Value(g, SignatureUri(ext, sig), HasExplanationProperty).Some? ==>
               Value(g, SignatureUri(ext, sig), HasExplanationProperty).value == ExplanationUri(ext, sig)
    requires forall p :: Value(h, ExplanationUri(ext, sig), p) == Value(g, ExplanationUri(ext, sig), p)
    ensures GetExplanation(ext, h, sig) == GetExplanation(ext, g, sig)
  {
  }

  // ---------------------------------------------------------------------------
  // Every typed signature has an explanation link
  // ---------------------------------------------------------------------------

  /** `clear` leaves a linked graph, and `add_violation` keeps a graph linked, whether or not a `to_dict` raised. */
  lemma LinkedPreserved(ext: Externals, g: set<Triple>, sig: ViolationSignature, e: ExplanationOutput)
    ensures Linked(Clear(g))
    ensures Linked(g) ==> Linked(AddViolation(ext, g, sig, e).graph)
  {
  }

  /** In a linked graph `get_explanation` follows the link of every signature `has_violation` reports to its own explanation node. */
  lemma LinkedHasExplanation(ext: Externals, g: set<Triple>, sig: ViolationSignature)
    requires Linked(g) && HasViolation(ext, g, sig)
    ensures Value(g, SignatureUri(ext, sig), HasExplanationProperty) == Some(ExplanationUri(ext, sig))
  {
    var s := SignatureUri(ext, sig);
    var x := ExplanationUri(ext, sig);
    forall o
      ensures Triple(s, HasExplanationProperty, o) in g <==> o == x
    {
      if Triple(s, HasExplanationProperty, o) in g {
        assert Triple(s, HasExplanationProperty, o).obj == x;
      }
    }
    ValueOfSingle(g, s, HasExplanationProperty, x);
  }
}
