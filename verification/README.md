# xpSHACL explanation records and violation knowledge graph, in Dafny

xpSHACL explains SHACL validation failures. This project models two pieces of it.

1. The dictionary serialisers of its data classes in `src/xpshacl_architecture.py`.
   - `ViolationType` is a string-valued enum.
   - `ConstraintViolation`, `JustificationNode` (with `add_child`), `JustificationTree`, `DomainContext` and `ExplanationOutput` each have a `to_dict` and a `from_dict`.
   - Dicts are `Json` values (`json.dfy`), and records are Dafny datatypes (`architecture.dfy`).
   - Each decoder returns a `Result` whose error names the Python exception the source would raise: `KeyError`, `TypeError`, `ValueError` or `AttributeError`.
2. The violation knowledge graph, `ViolationKnowledgeGraph` in `src/violation_kg.py`.
   - It caches explanations keyed by violation signature, stored as RDF triples.
   - The graph is a finite set of triples (`violation_kg.dfy`).
   - `signature_to_uri`, `has_violation`, `add_violation`, `get_explanation`, `clear` and `size` are functions from the triple set before a call to the result and the triple set after it.

Three things the source delegates are parameters in an `Externals` value:
- the MD5 hex digest of a signature's canonical form;
- `json.dumps`;
- `json.loads`.

The properties that need them assume only what they use:
- `JsonCodec`: `loads` inverts `dumps`, and `dumps` never writes empty text.
- `DigestWidth`: an MD5 hex digest is 32 characters long.

`graph.value` is a ghost choice of some object of `(s, p, _)`. Because of that, `get_explanation` is a ghost function. Where the object is unique, the choice is that object.

Files:
- `results.dfy`: `Option`, `Result` and the error kinds.
- `json.dfy`: JSON values with Python truthiness, `dict.get` and `dict[...]`.
- `architecture.dfy`: the data classes and their `to_dict`/`from_dict`.
- `round_trips.dfy`: the round trips that hold, and the ones the code breaks.
- `param_order.dfy`: `sorted(params.items())`, and why its result does not depend on insertion order.
- `violation_kg.dfy`: the knowledge graph.
- `kg_properties.dfy`: the knowledge graph's properties across calls.

Two policies of the knowledge graph matter for every property below:
- `add_violation` does nothing for a signature already typed in the graph, so the first writer wins.
- `get_explanation` raises when no explanation is linked.

## Model

| member | source | states |
|---|---|---|
| Architecture.ParseViolationType | src/xpshacl_architecture.py:14-23 | `ViolationType(value)` succeeds only on one of the seven enum strings and returns the member that has that value; on any other value it raises ValueError |
| Architecture.TypeValuesDistinct | src/xpshacl_architecture.py:14-23 | two enum members have the same string value exactly when they are the same member |
| Architecture.TypeValueRoundTrip | src/xpshacl_architecture.py:14-23 | `ViolationType(t.value)` gives back `t` for every member |
| Architecture.ViolationToDict | src/xpshacl_architecture.py:49-61 | `to_dict` succeeds exactly when `violation_type` is set, and writes the type as its enum string; with no type it raises AttributeError on `.value` |
| Architecture.OptionalViolationType | src/xpshacl_architecture.py:66-69 | a falsy `violation_type` entry decodes to None; a truthy one decodes only if it is an enum value, and otherwise raises ValueError |
| Architecture.ViolationFromDict | src/xpshacl_architecture.py:63-80 | `from_dict` succeeds exactly on a dict that has the three required string keys, a decodable type and string-or-None optional fields; when the `violation_type` entry decodes (falsy, or a member's value) and `focus_node` is missing, it raises KeyError("focus_node"), while an entry that is truthy but no member's value raises ValueError first; every field is read from its key, and a missing `context` becomes `{}` |
| RoundTrips.ViolationRoundTrip | src/xpshacl_architecture.py:49-80 | `from_dict(to_dict(v)) == v`, with all nine fields kept, for every violation whose type is set |
| RoundTrips.ViolationFromMinimalDict | src/xpshacl_architecture.py:66-80 | a dict with only the three required keys decodes with no type, None in the optional fields and `{}` as context |
| RoundTrips.ViolationTypeEmptyOrUnknown | src/xpshacl_architecture.py:66-69 | an empty `violation_type` decodes to None, and an unknown non-empty one raises ValueError |
| Architecture.AddChild | src/xpshacl_architecture.py:92-94 | `add_child` appends the child last and leaves the existing children and the node's own fields unchanged |
| RoundTrips.AddChildSerialises | src/xpshacl_architecture.py:92-103 | after `add_child`, the node's `children` list serialises as the old list plus the child's dict, and the node still round-trips |
| Architecture.NodeToDict | src/xpshacl_architecture.py:96-103 | a node serialises to a dict whose `children` list has one entry per child |
| Architecture.NodeFromDict | src/xpshacl_architecture.py:105-118 | as written, `from_dict` succeeds only when `"children"` is present; a dict without it raises TypeError from iterating None |
| Architecture.NodeFromDictCorrected | src/xpshacl_architecture.py:105-118 | the corrected decoder reads a dict without `"children"` as a leaf |
| RoundTrips.NodeRoundTrip | src/xpshacl_architecture.py:96-118 | `from_dict(to_dict(n)) == n` for every tree, recursively, keeping statement, type, evidence and the children in order, for both decoders |
| RoundTrips.NodeFromDictRoundTrip | src/xpshacl_architecture.py:96-118 | both node decoders invert `to_dict` |
| RoundTrips.NodeWithoutChildren | src/xpshacl_architecture.py:112-117 | a dict with only `statement` and `type` makes the source's decoder raise TypeError, and the corrected decoder give a leaf |
| RoundTrips.CorrectedNodeExtends | src/xpshacl_architecture.py:105-118 | wherever the source's node decoder succeeds, the corrected one gives the same node |
| Architecture.TreeToDict | src/xpshacl_architecture.py:128-133 | a tree serialises to a dict holding its violation's dict under `violation` and its root's dict under `justification`; a tree with no violation raises AttributeError |
| Architecture.TreeFromDict | src/xpshacl_architecture.py:135-141 | as written, `JustificationTree.from_dict` never succeeds; when both parts decode it raises TypeError for the keyword `justification` |
| Architecture.TreeFromDictCorrected | src/xpshacl_architecture.py:135-141 | the corrected decoder succeeds exactly when both parts decode, and builds the tree from them |
| RoundTrips.TreeRoundTripFails | src/xpshacl_architecture.py:128-141 | decoding any serialised tree with the source's decoder raises the keyword TypeError |
| RoundTrips.TreeRoundTripCorrected | src/xpshacl_architecture.py:128-141 | the corrected tree decoder inverts `to_dict` |
| Architecture.ContextToDict | src/xpshacl_architecture.py:156-163 | a context serialises each of its four lists under its own key |
| Architecture.ContextFromDict | src/xpshacl_architecture.py:165-181 | as written, each field is `data.get(key)`, so a missing key gives None |
| Architecture.ContextFromDictCorrected | src/xpshacl_architecture.py:165-181 | the corrected decoder gives `[]` for a missing key |
| RoundTrips.ContextRoundTrip | src/xpshacl_architecture.py:156-181 | both context decoders invert `to_dict` |
| RoundTrips.ContextFromEmptyDict | src/xpshacl_architecture.py:165-181 | `from_dict({})` gives four None fields, not the four empty lists of `DomainContext()`; the corrected decoder gives the empty lists |
| RoundTrips.ContextDecodersAgree | src/xpshacl_architecture.py:165-181 | the two context decoders agree on every dict that has all four keys |
| Architecture.ExplanationToDict | src/xpshacl_architecture.py:198-211 | `to_dict` succeeds exactly when the violation and the tree's violation have a type; it writes the texts and suggestions under their keys, a truthy entry exactly for each present part, and each part's own `to_dict` |
| Architecture.ExplanationFromDict | src/xpshacl_architecture.py:213-237 | as written, `from_dict` raises KeyError without `natural_language_explanation`, fails whenever `justification_tree` is truthy, and so never returns a tree |
| Architecture.ExplanationFromDictCorrected | src/xpshacl_architecture.py:213-237 | with the corrected decoders, `natural_language_explanation` and `provided_by_model` are still required |
| RoundTrips.ExplanationRoundTrip | src/xpshacl_architecture.py:198-237 | the source's decoder inverts `to_dict` exactly for outputs without a tree; with a tree it raises the keyword TypeError |
| RoundTrips.ExplanationRoundTripCorrected | src/xpshacl_architecture.py:198-237 | with the corrected decoders every serialisable output round-trips |
| RoundTrips.ExplanationRequiredKeys | src/xpshacl_architecture.py:213-237 | without `provided_by_model` or `natural_language_explanation`, `from_dict` raises KeyError for the missing key; with only those two keys it decodes with every other field None |
| ParamOrder.SortIgnoresInsertionOrder | src/violation_kg.py:70-72 | two dicts holding the same items in any insertion order have the same `sorted(items())` |
| KGProperties.SignatureUriIgnoresInsertionOrder | src/violation_kg.py:62-76 | two signatures that differ only in parameter insertion order, and whose parameter values hold no nested dict, get the same URI, so `has_violation`, `get_explanation` and `add_violation` treat them alike |
| KGProperties.ParamsToDictIgnoresOrder | src/violation_kg.py:167-170 | the parameters stored as JSON form the same dict whatever order they were inserted in |
| KGProperties.SignatureNodeIgnoresInsertionOrder | src/violation_kg.py:62-76 | for parameter values that hold no nested dict, insertion order changes neither the signature URI nor the triples written about the signature |
| KGProperties.NodesApart | src/violation_kg.py:62-76 | with 32-character digests no explanation node is a signature node, and signatures with distinct URIs have distinct explanation nodes |
| KGProperties.HasViolationAfterAdd | src/violation_kg.py:78-83 | after `add_violation(sig, e)`, `has_violation` holds for exactly the signatures it held for before and those with the URI of `sig` |
| KGProperties.SizeAfterAdd | src/violation_kg.py:232-234 | `size()` is unchanged by `add_violation` to a signature already typed, and grows for a new one |
| KGProperties.SameNodeSameOperations | src/violation_kg.py:85-225 | the three operations see a signature only through its URI and the triples written about it |
| ViolationKG.NamedPropertiesDistinct | src/violation_kg.py:25 | the `rdf:type` predicate and the `xsh:` predicates the store reads and writes have pairwise distinct IRIs, so no two fields share a predicate |
| ViolationKG.ExplanationUri | src/violation_kg.py:172-173 | the explanation node is never the signature node |
| ViolationKG.Value | src/violation_kg.py:93 | `graph.value(s, p)` is None exactly when no triple `(s, p, _)` exists, and otherwise one of their objects |
| ViolationKG.Clear | src/violation_kg.py:227-234 | after `clear`, `size()` is 0, `has_violation` is false for every signature and `get_explanation` raises for every signature |
| ViolationKG.SignatureTriples | src/violation_kg.py:155-175 | the signature part of a write types the signature node and links it to its explanation node; that link is its only `hasExplanation` triple, and the signature node is the only node it types as a signature; it is only about those two nodes |
| ViolationKG.SignatureFields | src/violation_kg.py:158-170 | the signature's own fields are written on the signature node, always with the constraint id, and only under the four signature predicates |
| ViolationKG.TextTriples | src/violation_kg.py:176-197 | the text part of a write is only about the explanation node, and only under the three text predicates |
| ViolationKG.JsonTriple | src/violation_kg.py:199-223 | one JSON part is written exactly when its `to_dict` succeeds or the part is absent, as one triple on the explanation node under its own predicate |
| ViolationKG.JsonWrites | src/violation_kg.py:199-223 | the JSON part of a write is only about the explanation node, under the three JSON predicates, and completes without raising exactly when every part serialises |
| ViolationKG.Writes | src/violation_kg.py:155-223 | a write to a new signature contains the signature and text triples; it is only about the signature and explanation nodes; its one `hasExplanation` link is the signature's own; it completes without raising exactly when every part serialises |
| ViolationKG.AddViolation | src/violation_kg.py:146-225 | first writer wins (no change and no error when the signature is already typed); afterwards `has_violation` holds and the link triple is present; the graph only grows, and new triples are only about the signature and explanation nodes; it raises exactly when a new explanation's parts cannot serialise |
| ViolationKG.GetExplanation | src/violation_kg.py:85-144 | raises when the signature has no `hasExplanation` link; a result comes back with one suggestion at most, and the rebuilt tree carries the violation that was read back |
| KGProperties.AddThenGet | src/violation_kg.py:85-225 | after `add_violation` to a signature the graph has never seen, `get_explanation` returns `ReadBack(e)`: empty texts as None, the suggestions joined into one line, and the tree rebuilt around the stored violation |
| KGProperties.TripleAtExplanation | src/violation_kg.py:176-223 | after a write to a fresh signature, the explanation node holds under each field exactly the object stored for it, and nothing when the part is absent or falsy |
| KGProperties.ReadsStored | src/violation_kg.py:85-144 | a graph whose link and explanation node hold what `add_violation` stores for `e` gives `ReadBack(e)` to `get_explanation` |
| KGProperties.StoredViolationReadBack | src/violation_kg.py:114-118 | a stored violation's JSON reads back as the same violation |
| KGProperties.StoredTreeReadBack | src/violation_kg.py:120-126 | a stored tree's JSON gives back the tree's root |
| KGProperties.StoredContextReadBack | src/violation_kg.py:128-132 | a stored context's JSON reads back as the same context |
| KGProperties.JoinEmpty | src/violation_kg.py:187-192 | the joined suggestions are empty text exactly for no suggestions or one empty one |
| KGProperties.ReadBackExactlyWhen | src/violation_kg.py:134-143 | the readback equals the stored explanation exactly when: no text is empty; the suggestions are a list of at most one non-empty line; and any tree carries the explanation's own violation |
| KGProperties.AddKeepsOthers | src/violation_kg.py:146-225 | adding one signature changes no other signature's `has_violation` or `get_explanation`, in a graph whose links are as `add_violation` writes them |
| KGProperties.LinkedPreserved | src/violation_kg.py:155-175 | `clear` gives a graph in which every typed signature is linked to its own explanation node; `add_violation` keeps that true, even when a `to_dict` raised partway |
| KGProperties.LinkedHasExplanation | src/violation_kg.py:90-95 | in such a graph, `get_explanation` follows the link of every signature `has_violation` reports, and reaches that signature's own explanation node |

## Left out

- Persistence is not modelled. That covers Turtle parsing in `__init__`, `save_kg`, `load_kg` and their calls at the end of `add_violation` and `clear`, all of which are file I/O. Graphs start empty, as after `clear`.
- Logging is not modelled.
- `violation_signature.py` is not part of this model. `ViolationSignature` carries only the four fields the knowledge graph reads.
- MD5 is a parameter. No collision-freedom is assumed, so two signatures are "other" only when their URIs differ.
- JSON text is a parameter. `json.dumps`/`json.loads` are assumed only to invert each other and never to write empty text. `sort_keys=True` has no effect on a map.
- JSON numbers are integers. Floats are not modelled.
- RDF literals are plain strings. Datatypes and language tags are not modelled.
- `graph.value` is a nondeterministic choice. When several objects exist, rdflib's choice is not modelled.
- Predicates and the two class IRIs are constructors (`Property`, `RdfClass`), not IRI strings. The model does not cover a graph that names them by a plain IRI, which only a loaded Turtle file could do.
- ViolationKG.SignatureUri: the canonical form holds each parameter value as a JSON value, and a nested dict there is an unordered map. Python's `repr` of a nested dict keeps its insertion order, so two signatures whose nested dicts differ only in order get different URIs in the source and the same URI in the model.
- KGProperties.SignatureUriIgnoresInsertionOrder: requires that no parameter value holds a nested dict, because of the gap in `ViolationKG.SignatureUri` above. Only the order of the top-level parameters is shown not to matter.
- KGProperties.SignatureNodeIgnoresInsertionOrder: requires that no parameter value holds a nested dict, for the same reason.
- Architecture.ViolationFromDict: a field of the wrong JSON shape is an `IllTyped` error. Python would store the value unchecked in the dataclass field.
- Architecture.AddChild: nodes are immutable values, so `add_child` returns a new node holding a copy of the child. In-place append is left out. So are a child shared between parents, cycles such as `n.add_child(n)` (whose `to_dict` recurses without end in Python), and later changes to a child that was already added, which Python would see through the parent. `RoundTrips.AddChildSerialises` is likewise about node values only.
- Architecture.NodeFromDict: a `statement`, `type` or `evidence` of the wrong JSON shape is an `IllTyped` error. Python would store the value unchecked in the dataclass field. The same holds for `Architecture.NodeFromDictCorrected`, `Architecture.TreeFromDict` and `Architecture.TreeFromDictCorrected`, which decode nodes the same way.
- Architecture.ContextFromDict: a field of the wrong JSON shape is an `IllTyped` error, as for violations.
- Architecture.ExplanationFromDict: a field of the wrong JSON shape is an `IllTyped` error, as for violations.
- `correction_suggestions` is a list of strings, although it is annotated `Optional[str]`. `add_violation` joins it as a list, and `get_explanation` returns a list.
- `natural_language_explanation` is optional, although it is annotated `str`. `get_explanation` can return None for it.
- `JustificationTree.violation` is optional, although it is annotated as a violation. `get_explanation` builds trees with None there.
- Truthiness of data-class instances is not modelled. `add_violation` and `to_dict` treat a present part as truthy, which matches the source.
- `tests/test_extended_shacl_validator.py` is not part of this model. It exercises a validator whose source is not part of this model.

## Findings

| source | as written | input that shows it | evidently intended | confidence | as-written member | corrected member |
|---|---|---|---|---|---|---|
| src/xpshacl_architecture.py:135-141 | `JustificationTree.from_dict` passes the keyword `justification`, but the field is `root` | the `to_dict` of any tree with a typed violation | build the tree with `root=` | high, not executed | RoundTrips.TreeRoundTripFails | RoundTrips.TreeRoundTripCorrected |
| src/xpshacl_architecture.py:112-117 | `data.get("children",)` gives None for a missing key, and iterating None raises TypeError | `{"statement": "s", "type": "t"}` | read a missing `children` as `[]` | high, not executed | RoundTrips.NodeWithoutChildren | Architecture.NodeFromDictCorrected |
| src/xpshacl_architecture.py:165-181 | `data.get(key,)` gives None for a missing key, unlike the dataclass default `[]` | `{}` | default each missing list to `[]` | medium, not executed | RoundTrips.ContextFromEmptyDict | Architecture.ContextFromDictCorrected |

The corrected decoders are `NodeFromDictCorrected`, `TreeFromDictCorrected`, `ContextFromDictCorrected` and `ExplanationFromDictCorrected`. `RoundTrips.ExplanationRoundTripCorrected` proves that every serialisable output round-trips with them. `get_explanation` is modelled with the decoders as written. It never calls `JustificationTree.from_dict`, and it reads only dicts that `to_dict` wrote. On those dicts, both node decoders and both context decoders agree.
