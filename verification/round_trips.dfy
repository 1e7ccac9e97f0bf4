/**
  What the serialisers of `Architecture` promise each other: the round trips
  `from_dict(to_dict(x)) == x` that hold, the ones the source breaks, and how
  the corrected decoders relate to the ones as written.
 */
module RoundTrips {
  import opened Results
  import opened JsonValues
  import opened Architecture

  // ---------------------------------------------------------------------------
  // ConstraintViolation
  // ---------------------------------------------------------------------------

  /** Every violation with a violation type survives `to_dict` then `from_dict`, all nine fields included. */
  lemma ViolationRoundTrip(v: ConstraintViolation)
    requires v.violationType.Some?
    ensures ViolationToDict(v).Success?
    ensures ViolationFromDict(ViolationToDict(v).value) == Success(v)
  {
    var d := ViolationToDict(v).value.fields;
    assert d["violation_type"] == JStr(TypeValue(v.violationType.value));
    assert IsViolationDict(d);
    var r := ViolationFromDict(ViolationToDict(v).value);
    assert r.value.violationType == v.violationType by {
      TypeValuesDistinct(r.value.violationType.value, v.violationType.value);
    }
  }

  /**
    A dict holding only the three required keys reads back with no violation
    type, None for every optional field and an empty context.
   */
  lemma ViolationFromMinimalDict(focusNode: string, shapeId: string, constraintId: string)
    ensures ViolationFromDict(JObj(map[
              "focus_node" := JStr(focusNode),
              "shape_id" := JStr(shapeId),
              "constraint_id" := JStr(constraintId)]))
            == Success(ConstraintViolation(focusNode, shapeId, constraintId, None,
                                           None, None, None, None, JObj(map[])))
  {
  }

  /** A violation type of "" counts as missing, while an unknown non-empty one is an error. */
  lemma ViolationTypeEmptyOrUnknown(d: map<string, Json>, raw: string)
    requires IsViolationDict(d["violation_type" := JStr("")])
    requires forall t :: raw != TypeValue(t)
    requires raw != ""
    ensures ViolationFromDict(JObj(d["violation_type" := JStr("")])).Success?
    ensures ViolationFromDict(JObj(d["violation_type" := JStr("")])).value.violationType == None
    ensures ViolationFromDict(JObj(d["violation_type" := JStr(raw)])) == Failure(InvalidEnumValue)
  {
    var bad := d["violation_type" := JStr(raw)];
    assert Get(bad, "violation_type") == JStr(raw);
  }

  // ---------------------------------------------------------------------------
  // JustificationNode
  // ---------------------------------------------------------------------------

  /** The dicts of a list of nodes, as `to_dict` writes the "children" entry. */
  function NodesToDicts(ns: seq<JustificationNode>): (r: seq<Json>)
    ensures |r| == |ns|
    ensures forall i :: 0 <= i < |ns| ==> r[i] == NodeToDict(ns[i])
  {
    seq(|ns|, i requires 0 <= i < |ns| => NodeToDict(ns[i]))
  }

  /**
    Every node survives `to_dict` then `from_dict`, as written or corrected:
    statement, type, evidence and the children, in order, recursively.
   */
  lemma {:induction false} NodeRoundTrip(n: JustificationNode, corrected: bool)
    ensures NodeFromDictAs(NodeToDict(n), corrected) == Success(n)
    decreases n, 1
  {
    var d := NodeToDict(n).fields;
    assert d["children"] == JArr(NodesToDicts(n.children));
    NodesRoundTrip(n.children, n, corrected);
  }

  lemma {:induction false} NodesRoundTrip(ns: seq<JustificationNode>, parent: JustificationNode, corrected: bool)
    requires forall i :: 0 <= i < |ns| ==> ns[i] < parent
    ensures NodesFromList(NodesToDicts(ns), corrected) == Success(ns)
    decreases parent, 0, |ns|
  {
    if ns != [] {
      NodeRoundTrip(ns[0], corrected);
      assert NodesToDicts(ns)[1..] == NodesToDicts(ns[1..]);
      NodesRoundTrip(ns[1..], parent, corrected);
      assert ns == [ns[0]] + ns[1..];
    }
  }

  /** The source's `JustificationNode.from_dict` inverts `to_dict`. */
  lemma NodeFromDictRoundTrip(n: JustificationNode)
    ensures NodeFromDict(NodeToDict(n)) == Success(n)
    ensures NodeFromDictCorrected(NodeToDict(n)) == Success(n)
  {
    NodeRoundTrip(n, false);
    NodeRoundTrip(n, true);
  }

  /**
    The corrected decoder only adds successes: wherever the decoder as written
    succeeds, the corrected one returns the same node.
   */
  lemma {:induction false} CorrectedNodeExtends(data: Json)
    requires NodeFromDictAs(data, false).Success?
    ensures NodeFromDictAs(data, true) == NodeFromDictAs(data, false)
    decreases data, 1
  {
    var d := data.fields;
    assert "children" in d;
    CorrectedChildrenExtend(d["children"]);
  }

  lemma {:induction false} CorrectedChildrenExtend(j: Json)
    requires ChildrenFromJson(j, false).Success?
    ensures ChildrenFromJson(j, true) == ChildrenFromJson(j, false)
    decreases j, 0
  {
    if j.JArr? {
      CorrectedListExtends(j.items);
    }
  }

  lemma {:induction false} CorrectedListExtends(items: seq<Json>)
    requires NodesFromList(items, false).Success?
    ensures NodesFromList(items, true) == NodesFromList(items, false)
    decreases items, 2
  {
    if items != [] {
      CorrectedNodeExtends(items[0]);
      CorrectedListExtends(items[1..]);
    }
  }

  /**
    A node dict without "children": the source's decoder fails on iterating
    None, the corrected one reads a leaf.
   */
  lemma NodeWithoutChildren(statement: string, kind: string)
    ensures NodeFromDict(JObj(map["statement" := JStr(statement), "type" := JStr(kind)]))
            == Failure(NotIterable)
    ensures NodeFromDictCorrected(JObj(map["statement" := JStr(statement), "type" := JStr(kind)]))
            == Success(JustificationNode(statement, kind, None, []))
  {
  }

  /**
    `add_child` appends exactly one entry, the child's dict, to the serialised
    children, and the grown node still round-trips.
   */
  lemma AddChildSerialises(n: JustificationNode, child: JustificationNode)
    ensures NodeToDict(AddChild(n, child)).fields["children"]
            == JArr(NodesToDicts(n.children) + [NodeToDict(child)])
    ensures NodeFromDict(NodeToDict(AddChild(n, child))) == Success(AddChild(n, child))
  {
    var m := AddChild(n, child);
    assert NodesToDicts(m.children) == NodesToDicts(n.children) + [NodeToDict(child)];
    NodeFromDictRoundTrip(m);
  }

  // ---------------------------------------------------------------------------
  // JustificationTree
  // ---------------------------------------------------------------------------

  /** No serialised tree can be read back by the source's `JustificationTree.from_dict`. */
  lemma TreeRoundTripFails(t: JustificationTree)
    requires TreeToDict(t).Success?
    ensures TreeFromDict(TreeToDict(t).value) == Failure(UnexpectedKeyword("justification"))
  {
    ViolationRoundTrip(t.violation.value);
    NodeFromDictRoundTrip(t.root);
  }

  /** With `root=` the tree round-trips. */
  lemma TreeRoundTripCorrected(t: JustificationTree)
    requires TreeToDict(t).Success?
    ensures TreeFromDictCorrected(TreeToDict(t).value) == Success(t)
  {
    ViolationRoundTrip(t.violation.value);
    NodeFromDictRoundTrip(t.root);
  }

  // ---------------------------------------------------------------------------
  // DomainContext
  // ---------------------------------------------------------------------------

  /** Every context survives `to_dict` then `from_dict`, as written or corrected. */
  lemma ContextRoundTrip(c: DomainContext)
    ensures ContextFromDict(ContextToDict(c)) == Success(c)
    ensures ContextFromDictCorrected(ContextToDict(c)) == Success(c)
  {
    OptStringsRoundTrip("ontology_fragments", c.ontologyFragments);
    OptStringsRoundTrip("shape_documentation", c.shapeDocumentation);
    OptMappingsRoundTrip("similar_cases", c.similarCases);
    OptStringsRoundTrip("domain_rules", c.domainRules);
  }

  /**
    An empty dict reads back as four None lists under the source's decoder,
    not as the four empty lists of `DomainContext()`; the corrected decoder
    gives the empty lists.
   */
  lemma ContextFromEmptyDict()
    ensures ContextFromDict(JObj(map[])) == Success(DomainContext(None, None, None, None))
    ensures ContextFromDict(JObj(map[])) != Success(EmptyContext())
    ensures ContextFromDictCorrected(JObj(map[])) == Success(EmptyContext())
  {
    StringsRoundTrip([]);
    MappingsRoundTrip([]);
  }

  /** Where every key is present the two context decoders agree. */
  lemma ContextDecodersAgree(d: map<string, Json>)
    requires "ontology_fragments" in d && "shape_documentation" in d
    requires "similar_cases" in d && "domain_rules" in d
    ensures ContextFromDictCorrected(JObj(d)) == ContextFromDict(JObj(d))
  {
  }

  // ---------------------------------------------------------------------------
  // ExplanationOutput
  // ---------------------------------------------------------------------------

  /** The "violation" entry of a serialised output reads back as the output's violation. */
  lemma ViolationEntryRoundTrip(e: ExplanationOutput)
    requires Serialisable(e)
    ensures DecodeIfTruthy(ExplanationToDict(e).value.fields, "violation", ViolationFromDict)
            == Success(e.violation)
  {
    if e.violation.Some? {
      ViolationRoundTrip(e.violation.value);
    }
  }

  /** The "retrieved_context" entry reads back as the output's context, under either decoder. */
  lemma ContextEntryRoundTrip(e: ExplanationOutput)
    requires Serialisable(e)
    ensures DecodeIfTruthy(ExplanationToDict(e).value.fields, "retrieved_context", ContextFromDict)
            == Success(e.retrievedContext)
    ensures DecodeIfTruthy(ExplanationToDict(e).value.fields, "retrieved_context", ContextFromDictCorrected)
            == Success(e.retrievedContext)
  {
    if e.retrievedContext.Some? {
      ContextRoundTrip(e.retrievedContext.value);
    }
  }

  /** The "justification_tree" entry: the source's decoder fails on it, the corrected one inverts it. */
  lemma TreeEntryRoundTrip(e: ExplanationOutput)
    requires Serialisable(e)
    ensures e.justificationTree.Some? ==>
              DecodeIfTruthy(ExplanationToDict(e).value.fields, "justification_tree", TreeFromDict)
              == Failure(UnexpectedKeyword("justification"))
    ensures e.justificationTree.None? ==>
              DecodeIfTruthy(ExplanationToDict(e).value.fields, "justification_tree", TreeFromDict)
              == Success(None)
    ensures DecodeIfTruthy(ExplanationToDict(e).value.fields, "justification_tree", TreeFromDictCorrected)
            == Success(e.justificationTree)
  {
    if e.justificationTree.Some? {
      TreeRoundTripFails(e.justificationTree.value);
      TreeRoundTripCorrected(e.justificationTree.value);
    }
  }

  /** The decoder reassembles an output from entries that each read back correctly. */
  lemma ExplanationFromEntries(
    e: ExplanationOutput,
    treeFromDict: Json -> Result<JustificationTree>,
    contextFromDict: Json -> Result<DomainContext>)
    requires Serialisable(e)
    requires DecodeIfTruthy(ExplanationToDict(e).value.fields, "justification_tree", treeFromDict)
             == Success(e.justificationTree)
    requires DecodeIfTruthy(ExplanationToDict(e).value.fields, "retrieved_context", contextFromDict)
             == Success(e.retrievedContext)
    ensures ExplanationFromDictWith(ExplanationToDict(e).value, treeFromDict, contextFromDict) == Success(e)
  {
    var d := ExplanationToDict(e).value.fields;
    assert AsOptString("natural_language_explanation", d["natural_language_explanation"])
           == Success(e.naturalLanguageExplanation);
    OptStringsRoundTrip("correction_suggestions", e.correctionSuggestions);
    assert AsOptStrings("correction_suggestions", Get(d, "correction_suggestions"))
           == Success(e.correctionSuggestions);
    ViolationEntryRoundTrip(e);
    assert AsOptString("provided_by_model", d["provided_by_model"]) == Success(e.providedByModel);
  }

  /**
    The source's `ExplanationOutput.from_dict` inverts `to_dict` exactly when
    there is no justification tree; with one, the tree decoder's bad keyword
    makes it fail.
   */
  lemma ExplanationRoundTrip(e: ExplanationOutput)
    requires Serialisable(e)
    ensures e.justificationTree.None? ==>
              ExplanationFromDict(ExplanationToDict(e).value) == Success(e)
    ensures e.justificationTree.Some? ==>
              ExplanationFromDict(ExplanationToDict(e).value) == Failure(UnexpectedKeyword("justification"))
  {
    TreeEntryRoundTrip(e);
    ContextEntryRoundTrip(e);
    if e.justificationTree.None? {
      ExplanationFromEntries(e, TreeFromDict, ContextFromDict);
    } else {
      OptStringsRoundTrip("correction_suggestions", e.correctionSuggestions);
      ViolationEntryRoundTrip(e);
    }
  }

  /** With the corrected tree and context decoders every serialisable output round-trips. */
  lemma ExplanationRoundTripCorrected(e: ExplanationOutput)
    requires Serialisable(e)
    ensures ExplanationFromDictCorrected(ExplanationToDict(e).value) == Success(e)
  {
    TreeEntryRoundTrip(e);
    ContextEntryRoundTrip(e);
    ExplanationFromEntries(e, TreeFromDictCorrected, ContextFromDictCorrected);
  }

  /** `natural_language_explanation` and `provided_by_model` are required keys. */
  lemma ExplanationRequiredKeys(text: string, model: string)
    ensures ExplanationFromDict(JObj(map["natural_language_explanation" := JStr(text)]))
            == Failure(KeyError("provided_by_model"))
    ensures ExplanationFromDict(JObj(map["provided_by_model" := JStr(model)]))
            == Failure(KeyError("natural_language_explanation"))
    ensures ExplanationFromDict(JObj(map[
              "natural_language_explanation" := JStr(text),
              "provided_by_model" := JStr(model)]))
            == Success(ExplanationOutput(Some(text), None, None, None, None, Some(model)))
  {
  }
}
