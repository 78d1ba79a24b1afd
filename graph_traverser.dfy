/** Bounded, tiered expansion of the knowledge graph from the entity names found in a
    question (`GraphTraverser` in src/rag/graph_traverser.py).

    The Neo4j gateway is a `GraphOracle`: four total functions whose results the traverser
    consumes. The traverser slices the related-entity, neighbour and per-entity document lists
    itself; the mentioning documents of the direct hit are taken as the gateway returns them,
    so only the overall document cap bounds them. */
module GraphTraversal {
  import opened Wrappers
  import opened PyStr
  import opened Records

  // ---------------------------------------------------------------------------
  // The gateway contract

  /** One mentioning document: `{doc_id, doc_title, doc_text, context}`. */
  datatype DocInfo = DocInfo(
    docId: Option<string>, docTitle: Option<string>, docText: Option<string>, context: Option<string>)

  /** `get_entity_with_documents`: the entity and its mentioning documents. */
  datatype EntityWithDocs = EntityWithDocs(entity: GraphEntity, documents: seq<DocInfo>)

  /** The relation record of a related entity: its `type` and `strength` keys. */
  datatype RelationInfo = RelationInfo(rtype: Option<string>, strength: Option<int>)

  /** One entry of `get_related_entities`. */
  datatype RelatedEntry = RelatedEntry(entity: GraphEntity, relation: RelationInfo, documents: seq<DocInfo>)

  /** One entry of `get_neighbors`. */
  datatype NeighborEntry = NeighborEntry(entity: GraphEntity, depth: int, documents: seq<DocInfo>)

  /** The graph gateway: entity-with-documents (name, document limit), related entities
      (name, limit), neighbours (name, depth, limit) and shortest path (two names). */
  datatype GraphOracle = GraphOracle(
    entityWithDocuments: (string, int) -> Option<EntityWithDocs>,
    relatedEntities: (string, int) -> seq<RelatedEntry>,
    neighbors: (string, int, int) -> seq<NeighborEntry>,
    findPath: (string, string) -> Option<GraphPath>)

  /** A gateway call, with the number of entities held when it was issued. */
  datatype Query =
    | EntityLookup(name: string, held: nat)
    | RelatedLookup(name: string, held: nat)
    | NeighborLookup(name: string, depth: int, held: nat)

  // ---------------------------------------------------------------------------
  // Limits

  const MaxSeeds := 5
  const MaxEntities := 50
  const MaxDocs := 10
  /** Tiers 1 and 2 run only below half of the entity budget (`max_entities // 2`). */
  const ExpansionGate := MaxEntities / 2
  const SeedDocLimit := 3
  const RelatedLimit := 5
  const RelatedDocs := 2
  const NeighborLimit := 5
  const NeighborDocs := 1

  // ---------------------------------------------------------------------------
  // The working state

  /** The context under construction together with the `seen_entities` and `seen_docs` sets. */
  datatype Acc = Acc(
    entities: seq<GraphEntity>, relationships: seq<Relationship>, docs: DocStore,
    contexts: seq<MentionContext>, seenEntities: set<string>, seenDocs: set<string>)

  const Start := Acc([], [], EmptyStore, [], {}, {})

  /** The invariant the traversal keeps: names are unique and mirrored by `seen_entities`,
      document keys are non-empty, unique, mirrored by `seen_docs` and at most `MaxDocs`,
      entities are at most `MaxEntities`, every context and every relationship object names a
      held entity. */
  ghost predicate Inv(a: Acc) {
    && Distinct(Names(a.entities))
    && (forall n :: n in a.seenEntities <==> n in Names(a.entities))
    && |a.entities| <= MaxEntities
    && a.docs.Valid()
    && (forall k :: k in a.seenDocs <==> k in a.docs.docs)
    && |a.docs.order| <= MaxDocs
    && (forall k :: k in a.docs.docs ==> k != "" && a.docs.docs[k].id == k)
    && (forall c :: c in a.contexts ==> c.entity in a.seenEntities && c.context != "")
    && (forall r :: r in a.relationships ==>
          r.subject.Some? && r.rtype.Some? && r.strength.Some?
          && r.obj.Some? && r.obj.value in a.seenEntities)
  }

  /** `b` grows `a` by appending only: no entity, relationship or context is dropped or
      reordered and no stored document is overwritten. */
  ghost predicate Extends(a: Acc, b: Acc) {
    && a.entities <= b.entities
    && a.relationships <= b.relationships
    && a.contexts <= b.contexts
    && a.docs.order <= b.docs.order
    && a.seenEntities <= b.seenEntities
    && (forall k :: k in a.docs.docs ==> k in b.docs.docs && b.docs.docs[k] == a.docs.docs[k])
  }

  lemma ExtendsTrans(a: Acc, b: Acc, c: Acc)
    requires Extends(a, b) && Extends(b, c)
    ensures Extends(a, c)
  {
  }

  lemma StartInv()
    ensures Inv(Start)
  {
    assert Names(Start.entities) == [];
  }

  /** The `seen_docs` count equals the number of stored documents. */
  lemma SeenDocsSize(a: Acc)
    requires Inv(a)
    ensures |a.seenDocs| == a.docs.Size()
  {
    assert a.seenDocs == a.docs.docs.Keys;
    StoreSize(a.docs);
  }

  /** `if entity['name'] not in seen_entities: append and add`. */
  function Admit(a: Acc, e: GraphEntity): (b: Acc)
    ensures e.name.value in b.seenEntities
    ensures b.entities == if e.name.value in a.seenEntities then a.entities else a.entities + [e]
    ensures b.seenEntities == a.seenEntities + {e.name.value}
    ensures b.relationships == a.relationships && b.contexts == a.contexts
    ensures b.docs == a.docs && b.seenDocs == a.seenDocs
  {
    var n := e.name.value;
    if n in a.seenEntities then a
    else a.(entities := a.entities + [e], seenEntities := a.seenEntities + {n})
  }

  /** Admitting an entity below the entity cap keeps the invariant. */
  lemma AdmitKeeps(a: Acc, e: GraphEntity)
    requires Inv(a) && |a.entities| < MaxEntities
    ensures Inv(Admit(a, e)) && Extends(a, Admit(a, e))
  {
    var b := Admit(a, e);
    if e.name.value !in a.seenEntities {
      assert Names(b.entities) == Names(a.entities) + [e.name.value];
    }
  }

  /** `doc_id` is truthy: present and non-empty. */
  predicate HasDocId(info: DocInfo) {
    info.docId.Some? && info.docId.value != ""
  }

  /** The document stored for a mention: `{'id', 'title': doc_title or doc_id, 'text'}`. */
  function DocumentOf(info: DocInfo): (d: Document)
    requires HasDocId(info)
    ensures d.id == info.docId.value
    ensures d.title == Some(info.docTitle.GetOr(info.docId.value))
    ensures d.text == Some(info.docText.GetOr(""))
  {
    Document(info.docId.value, Some(info.docTitle.GetOr(info.docId.value)), Some(info.docText.GetOr("")))
  }

  /** `if doc_id and doc_id not in seen_docs: store it and add it to seen_docs`. */
  function StoreDoc(a: Acc, info: DocInfo): (b: Acc)
    ensures b.entities == a.entities && b.seenEntities == a.seenEntities
    ensures b.relationships == a.relationships && b.contexts == a.contexts
    ensures HasDocId(info) && info.docId.value !in a.seenDocs ==>
              && b.docs.order == a.docs.order + [info.docId.value]
              && b.docs.docs == a.docs.docs[info.docId.value := DocumentOf(info)]
              && b.seenDocs == a.seenDocs + {info.docId.value}
    ensures !(HasDocId(info) && info.docId.value !in a.seenDocs) ==> b == a
  {
    if HasDocId(info) && info.docId.value !in a.seenDocs then
      var k := info.docId.value;
      a.(docs := DocStore(a.docs.order + [k], a.docs.docs[k := DocumentOf(info)]), seenDocs := a.seenDocs + {k})
    else
      a
  }

  /** Storing a document below the document cap keeps the invariant. */
  lemma StoreDocKeeps(a: Acc, info: DocInfo)
    requires Inv(a) && |a.seenDocs| < MaxDocs
    ensures Inv(StoreDoc(a, info)) && Extends(a, StoreDoc(a, info))
  {
    if HasDocId(info) && info.docId.value !in a.seenDocs {
      SeenDocsSize(a);
      var docs := StoreDoc(a, info).docs;
      assert Distinct(docs.order) by {
        forall i, j | 0 <= i < j < |docs.order| ensures docs.order[i] != docs.order[j] {
          if j == |a.docs.order| {
            assert docs.order[i] in a.docs.order;
          }
        }
      }
    }
  }

  /** The `relationships` record tier 1 emits for a related entry of `seed`. */
  function RelationshipFor(seed: string, rel: RelatedEntry): (r: Relationship)
    ensures r.subject == Some(seed) && r.obj == Some(rel.entity.name.value)
    ensures r.rtype == Some(rel.relation.rtype.GetOr("relates_to"))
    ensures r.strength == Some(rel.relation.strength.GetOr(1))
  {
    Relationship(Some(seed), Some(rel.relation.rtype.GetOr("relates_to")),
                 Some(rel.entity.name.value), Some(rel.relation.strength.GetOr(1)))
  }

  /** Append the tier-1 relationship for `rel`; nothing else changes. */
  function Emit(a: Acc, seed: string, rel: RelatedEntry): (b: Acc)
    ensures b.relationships == a.relationships + [RelationshipFor(seed, rel)]
    ensures b.entities == a.entities && b.docs == a.docs && b.contexts == a.contexts
    ensures b.seenEntities == a.seenEntities && b.seenDocs == a.seenDocs
  {
    a.(relationships := a.relationships + [RelationshipFor(seed, rel)])
  }

  /** Emitting keeps the invariant once the related entity is held. */
  lemma EmitKeeps(a: Acc, seed: string, rel: RelatedEntry)
    requires Inv(a) && rel.entity.name.value in a.seenEntities
    ensures Inv(Emit(a, seed, rel)) && Extends(a, Emit(a, seed, rel))
  {
  }

  // ---------------------------------------------------------------------------
  // The tiers

  /** The document loop of tiers 1 and 2 from `a`: each listed document in turn, stopping as
      soon as `MaxDocs` documents are held. */
  function Attached(a: Acc, infos: seq<DocInfo>): (b: Acc)
    ensures b.entities == a.entities && b.seenEntities == a.seenEntities
    ensures b.relationships == a.relationships && b.contexts == a.contexts
    ensures a.seenDocs <= b.seenDocs && |b.docs.order| <= |a.docs.order| + |infos|
    decreases |infos|
  {
    if infos == [] || |a.seenDocs| >= MaxDocs then a
    else Attached(StoreDoc(a, infos[0]), infos[1..])
  }

  /** The document loop keeps the invariant and only adds documents. */
  lemma {:induction false} AttachedKeeps(a: Acc, infos: seq<DocInfo>)
    requires Inv(a)
    ensures Inv(Attached(a, infos)) && Extends(a, Attached(a, infos))
    decreases |infos|
  {
    if infos != [] && |a.seenDocs| < MaxDocs {
      var c := StoreDoc(a, infos[0]);
      StoreDocKeeps(a, infos[0]);
      AttachedKeeps(c, infos[1..]);
      ExtendsTrans(a, c, Attached(c, infos[1..]));
    }
  }

  /** Every listed document with an id is seen afterwards, unless `MaxDocs` documents are. */
  lemma {:induction false} AttachedComplete(a: Acc, infos: seq<DocInfo>)
    ensures var b := Attached(a, infos);
      forall i :: 0 <= i < |infos| && HasDocId(infos[i]) ==>
        infos[i].docId.value in b.seenDocs || |b.seenDocs| >= MaxDocs
    decreases |infos|
  {
    if infos != [] && |a.seenDocs| < MaxDocs {
      var c := StoreDoc(a, infos[0]);
      var b := Attached(c, infos[1..]);
      AttachedComplete(c, infos[1..]);
      forall i | 0 <= i < |infos| && HasDocId(infos[i])
        ensures infos[i].docId.value in b.seenDocs || |b.seenDocs| >= MaxDocs
      {
        if i > 0 {
          assert infos[1..][i - 1] == infos[i];
        }
      }
    }
  }

  /** A document already seen keeps its record through the document loop. */
  lemma {:induction false} AttachedKeepsSeen(a: Acc, infos: seq<DocInfo>, k: string)
    requires k in a.docs.docs && k in a.seenDocs
    ensures k in Attached(a, infos).docs.docs && Attached(a, infos).docs.docs[k] == a.docs.docs[k]
    decreases |infos|
  {
    if infos != [] && |a.seenDocs| < MaxDocs {
      AttachedKeepsSeen(StoreDoc(a, infos[0]), infos[1..], k);
    }
  }

  /** Every newly held document is the record of a listed document with that id. */
  lemma {:induction false} AttachedFrom(a: Acc, infos: seq<DocInfo>)
    ensures var b := Attached(a, infos);
      forall k :: k in b.docs.docs && k !in a.docs.docs ==>
        exists i :: 0 <= i < |infos| && HasDocId(infos[i]) && infos[i].docId.value == k
                    && b.docs.docs[k] == DocumentOf(infos[i])
    decreases |infos|
  {
    if infos != [] && |a.seenDocs| < MaxDocs {
      var c := StoreDoc(a, infos[0]);
      var b := Attached(c, infos[1..]);
      AttachedFrom(c, infos[1..]);
      forall k | k in b.docs.docs && k !in a.docs.docs
        ensures exists i :: 0 <= i < |infos| && HasDocId(infos[i]) && infos[i].docId.value == k
                            && b.docs.docs[k] == DocumentOf(infos[i])
      {
        if k in c.docs.docs {
          AttachedKeepsSeen(c, infos[1..], k);
          assert HasDocId(infos[0]) && infos[0].docId.value == k && b.docs.docs[k] == DocumentOf(infos[0]);
        } else {
          var i :| 0 <= i < |infos[1..]| && HasDocId(infos[1..][i]) && infos[1..][i].docId.value == k
                   && b.docs.docs[k] == DocumentOf(infos[1..][i]);
          assert infos[1..][i] == infos[i + 1];
        }
      }
    }
  }

  /** The document loop of tiers 1 and 2: store each listed document while fewer than
      `MaxDocs` are held. */
  method AttachDocuments(a: Acc, infos: seq<DocInfo>) returns (b: Acc)
    requires Inv(a)
    ensures b == Attached(a, infos)
    ensures Inv(b) && Extends(a, b)
  {
    b := a;
    for i := 0 to |infos|
      invariant Attached(b, infos[i..]) == Attached(a, infos)
    {
      if |b.seenDocs| >= MaxDocs {
        break;
      }
      assert infos[i..][1..] == infos[i + 1..];
      b := StoreDoc(b, infos[i]);
    }
    AttachedKeeps(a, infos);
  }

  /** `doc_info.get('context')` is truthy: present and non-empty. */
  predicate HasContext(info: DocInfo) {
    info.context.Some? && info.context.value != ""
  }

  /** The context recorded for a mention of `name`: the entity, the document id, the title
      defaulting to the id, and the text around the mention. */
  function ContextRecord(name: string, info: DocInfo): (c: MentionContext)
    requires HasContext(info)
    ensures c.entity == name && c.docId == info.docId && c.context == info.context.value
    ensures c.docTitle == if info.docTitle.Some? then info.docTitle else info.docId
  {
    MentionContext(name, info.docId, if info.docTitle.Some? then info.docTitle else info.docId, info.context.value)
  }

  /** The context records of the mentions in `infos` that carry a context, in order. */
  function MentionContexts(name: string, infos: seq<DocInfo>): (r: seq<MentionContext>)
    ensures |r| <= |infos|
    ensures forall j :: 0 <= j < |r| ==> r[j].entity == name && r[j].context != ""
  {
    if infos == [] then []
    else (if HasContext(infos[0]) then [ContextRecord(name, infos[0])] else []) + MentionContexts(name, infos[1..])
  }

  /** The context records of a prefix of `n + 1` mentions: the first one's, then those of the
      next `n`. */
  lemma MentionContextsPrefix(name: string, infos: seq<DocInfo>, n: nat)
    requires n < |infos|
    ensures MentionContexts(name, infos[..n + 1]) ==
      (if HasContext(infos[0]) then [ContextRecord(name, infos[0])] else []) + MentionContexts(name, infos[1..][..n])
  {
    var pre := infos[..n + 1];
    assert pre[0] == infos[0] && pre[1..] == infos[1..][..n];
  }

  /** One mentioning document of tier 0: store it, and record its context when the mention
      carries one. */
  function MentionStep(a: Acc, name: string, info: DocInfo): (b: Acc)
    ensures b.entities == a.entities && b.seenEntities == a.seenEntities && b.relationships == a.relationships
    ensures b.docs == StoreDoc(a, info).docs && b.seenDocs == StoreDoc(a, info).seenDocs
    ensures b.contexts == a.contexts + (if HasContext(info) then [ContextRecord(name, info)] else [])
  {
    var c := StoreDoc(a, info);
    if HasContext(info) then c.(contexts := c.contexts + [ContextRecord(name, info)]) else c
  }

  /** A mention of a held entity, handled below the document cap, keeps the invariant. */
  lemma MentionStepKeeps(a: Acc, name: string, info: DocInfo)
    requires Inv(a) && |a.seenDocs| < MaxDocs && name in a.seenEntities
    ensures Inv(MentionStep(a, name, info)) && Extends(a, MentionStep(a, name, info))
  {
    StoreDocKeeps(a, info);
  }

  /** The tier-0 document loop from `a`: each mention in turn, stopping as soon as `MaxDocs`
      documents are held. */
  function DirectHitOf(a: Acc, name: string, infos: seq<DocInfo>): (b: Acc)
    ensures b.entities == a.entities && b.seenEntities == a.seenEntities && b.relationships == a.relationships
    ensures a.seenDocs <= b.seenDocs
    decreases |infos|
  {
    if infos == [] || |a.seenDocs| >= MaxDocs then a
    else DirectHitOf(MentionStep(a, name, infos[0]), name, infos[1..])
  }

  /** The tier-0 loop over the mentions of a held entity keeps the invariant and only adds
      documents and contexts. */
  lemma {:induction false} DirectHitOfKeeps(a: Acc, name: string, infos: seq<DocInfo>)
    requires Inv(a) && name in a.seenEntities
    ensures Inv(DirectHitOf(a, name, infos)) && Extends(a, DirectHitOf(a, name, infos))
    decreases |infos|
  {
    if infos != [] && |a.seenDocs| < MaxDocs {
      var c := MentionStep(a, name, infos[0]);
      MentionStepKeeps(a, name, infos[0]);
      DirectHitOfKeeps(c, name, infos[1..]);
      ExtendsTrans(a, c, DirectHitOf(c, name, infos[1..]));
    }
  }

  /** How many mentions the tier-0 loop handles before it ends or `MaxDocs` documents are
      held. */
  function Handled(a: Acc, name: string, infos: seq<DocInfo>): (n: nat)
    ensures n <= |infos|
    decreases |infos|
  {
    if infos == [] || |a.seenDocs| >= MaxDocs then 0
    else 1 + Handled(MentionStep(a, name, infos[0]), name, infos[1..])
  }

  /** The loop stops early only when `MaxDocs` documents are held. */
  lemma {:induction false} HandledAll(a: Acc, name: string, infos: seq<DocInfo>)
    ensures Handled(a, name, infos) < |infos| ==> |DirectHitOf(a, name, infos).seenDocs| >= MaxDocs
    decreases |infos|
  {
    if infos != [] && |a.seenDocs| < MaxDocs {
      HandledAll(MentionStep(a, name, infos[0]), name, infos[1..]);
    }
  }

  /** The contexts recorded are those of the handled mentions, in order. */
  lemma {:induction false} DirectHitContexts(a: Acc, name: string, infos: seq<DocInfo>)
    ensures DirectHitOf(a, name, infos).contexts == a.contexts + MentionContexts(name, infos[..Handled(a, name, infos)])
    decreases |infos|
  {
    if infos == [] || |a.seenDocs| >= MaxDocs {
      assert infos[..0] == [];
    } else {
      var c := MentionStep(a, name, infos[0]);
      DirectHitContexts(c, name, infos[1..]);
      MentionContextsPrefix(name, infos, Handled(c, name, infos[1..]));
    }
  }

  /** The document of every handled mention is seen afterwards. */
  lemma {:induction false} DirectHitStored(a: Acc, name: string, infos: seq<DocInfo>)
    ensures forall i :: 0 <= i < Handled(a, name, infos) && HasDocId(infos[i]) ==>
              infos[i].docId.value in DirectHitOf(a, name, infos).seenDocs
    decreases |infos|
  {
    if infos != [] && |a.seenDocs| < MaxDocs {
      var c := MentionStep(a, name, infos[0]);
      var b := DirectHitOf(c, name, infos[1..]);
      DirectHitStored(c, name, infos[1..]);
      forall i | 0 <= i < Handled(a, name, infos) && HasDocId(infos[i]) ensures infos[i].docId.value in b.seenDocs {
        if i > 0 {
          assert infos[1..][i - 1] == infos[i];
        }
      }
    }
  }

  /** Once the first `n` mentions fill the document cap, the later mentions record no context
      and store no document. */
  lemma {:induction false} DirectHitCapped(a: Acc, name: string, infos: seq<DocInfo>, n: nat)
    requires n <= |infos| && |DirectHitOf(a, name, infos[..n]).seenDocs| >= MaxDocs
    ensures DirectHitOf(a, name, infos) == DirectHitOf(a, name, infos[..n])
    decreases n
  {
    if n == 0 {
      assert infos[..0] == [];
    } else if |a.seenDocs| < MaxDocs {
      var c := MentionStep(a, name, infos[0]);
      var pre := infos[..n];
      assert pre[0] == infos[0] && pre[1..] == infos[1..][..n - 1];
      DirectHitCapped(c, name, infos[1..], n - 1);
    }
  }

  /** Tier 0, the direct hit: admit the entity, then for each mentioning document, while
      fewer than `MaxDocs` documents are held, store the document and record its context. */
  method DirectHit(a: Acc, hit: EntityWithDocs) returns (b: Acc)
    requires Inv(a) && |a.entities| < MaxEntities
    ensures b == DirectHitOf(Admit(a, hit.entity), hit.entity.name.value, hit.documents)
    ensures Inv(b) && Extends(a, b)
    ensures hit.entity.name.value in b.seenEntities
    ensures |b.entities| <= |a.entities| + 1
    ensures b.relationships == a.relationships
  {
    var name := hit.entity.name.value;
    b := Admit(a, hit.entity);
    AdmitKeeps(a, hit.entity);
    ghost var admitted := b;
    for i := 0 to |hit.documents|
      invariant DirectHitOf(b, name, hit.documents[i..]) == DirectHitOf(admitted, name, hit.documents)
    {
      if |b.seenDocs| >= MaxDocs {
        break;
      }
      assert hit.documents[i..][1..] == hit.documents[i + 1..];
      b := MentionStep(b, name, hit.documents[i]);
    }
    DirectHitOfKeeps(admitted, name, hit.documents);
    ExtendsTrans(a, admitted, b);
  }

  /** One related entry of tier 1 from `a`: admit its entity, emit the relationship from the
      seed (whether or not the entity was new) and attach up to two of its documents; the
      document loop does nothing once `MaxDocs` documents are held, which is the source's
      `len(seen_docs) < max_docs` guard. */
  function RelatedStepOf(a: Acc, seed: string, rel: RelatedEntry): (b: Acc)
    ensures b.entities == Admit(a, rel.entity).entities
    ensures b.seenEntities == a.seenEntities + {rel.entity.name.value}
    ensures b.relationships == a.relationships + [RelationshipFor(seed, rel)]
    ensures b.contexts == a.contexts
  {
    Attached(Emit(Admit(a, rel.entity), seed, rel), Take(rel.documents, RelatedDocs))
  }

  /** One related entry keeps the invariant and only adds. */
  lemma RelatedStepKeeps(a: Acc, seed: string, rel: RelatedEntry)
    requires Inv(a) && |a.entities| < MaxEntities
    ensures Inv(RelatedStepOf(a, seed, rel)) && Extends(a, RelatedStepOf(a, seed, rel))
  {
    var admitted := Admit(a, rel.entity);
    AdmitKeeps(a, rel.entity);
    var emitted := Emit(admitted, seed, rel);
    EmitKeeps(admitted, seed, rel);
    ExtendsTrans(a, admitted, emitted);
    AttachedKeeps(emitted, Take(rel.documents, RelatedDocs));
    ExtendsTrans(a, emitted, RelatedStepOf(a, seed, rel));
  }

  /** The entries tier 1 examines: the first five related entries of the seed. */
  function RelatedCandidates(g: GraphOracle, seed: string): (r: seq<RelatedEntry>)
    ensures r <= g.relatedEntities(seed, RelatedLimit)
    ensures |r| == if |g.relatedEntities(seed, RelatedLimit)| < RelatedLimit then |g.relatedEntities(seed, RelatedLimit)| else RelatedLimit
  {
    Take(g.relatedEntities(seed, RelatedLimit), RelatedLimit)
  }

  /** The related-entity loop of tier 1 from `a`: each candidate in turn, stopping as soon as
      `MaxEntities` entities are held. */
  function RelatedFrom(a: Acc, seed: string, candidates: seq<RelatedEntry>): (b: Acc)
    ensures a.entities <= b.entities && a.seenEntities <= b.seenEntities
    ensures a.relationships <= b.relationships && b.contexts == a.contexts
    decreases |candidates|
  {
    if candidates == [] || |a.entities| >= MaxEntities then a
    else RelatedFrom(RelatedStepOf(a, seed, candidates[0]), seed, candidates[1..])
  }

  /** The related-entity loop keeps the invariant and only adds. */
  lemma {:induction false} RelatedFromKeeps(a: Acc, seed: string, candidates: seq<RelatedEntry>)
    requires Inv(a)
    ensures Inv(RelatedFrom(a, seed, candidates)) && Extends(a, RelatedFrom(a, seed, candidates))
    decreases |candidates|
  {
    if candidates != [] && |a.entities| < MaxEntities {
      var c := RelatedStepOf(a, seed, candidates[0]);
      RelatedStepKeeps(a, seed, candidates[0]);
      RelatedFromKeeps(c, seed, candidates[1..]);
      ExtendsTrans(a, c, RelatedFrom(c, seed, candidates[1..]));
    }
  }

  /** How many candidates the related-entity loop handles before it ends or `MaxEntities`
      entities are held. */
  function RelatedHandled(a: Acc, seed: string, candidates: seq<RelatedEntry>): (n: nat)
    ensures n <= |candidates|
    decreases |candidates|
  {
    if candidates == [] || |a.entities| >= MaxEntities then 0
    else 1 + RelatedHandled(RelatedStepOf(a, seed, candidates[0]), seed, candidates[1..])
  }

  /** The relationships tier 1 emits for `candidates`, one per entry, in order. */
  function Emitted(seed: string, candidates: seq<RelatedEntry>): (r: seq<Relationship>)
    ensures |r| == |candidates|
    ensures forall j :: 0 <= j < |r| ==> r[j] == RelationshipFor(seed, candidates[j])
  {
    seq(|candidates|, j requires 0 <= j < |candidates| => RelationshipFor(seed, candidates[j]))
  }

  /** Emitting for a prefix of `m + 1` candidates emits for the first, then for the next `m`. */
  lemma EmittedCons(seed: string, candidates: seq<RelatedEntry>, m: nat)
    requires m + 1 <= |candidates|
    ensures Emitted(seed, candidates[..m + 1])
         == [RelationshipFor(seed, candidates[0])] + Emitted(seed, candidates[1..][..m])
  {
    var lhs := Emitted(seed, candidates[..m + 1]);
    var rhs := [RelationshipFor(seed, candidates[0])] + Emitted(seed, candidates[1..][..m]);
    forall k | 0 <= k < m + 1 ensures lhs[k] == rhs[k] {
      if k > 0 {
        assert candidates[1..][..m][k - 1] == candidates[k];
      }
    }
  }

  /** The loop stops early only when `MaxEntities` entities are held. */
  lemma {:induction false} RelatedStopped(a: Acc, seed: string, candidates: seq<RelatedEntry>)
    ensures RelatedHandled(a, seed, candidates) < |candidates| ==>
              |RelatedFrom(a, seed, candidates).entities| >= MaxEntities
    decreases |candidates|
  {
    if candidates != [] && |a.entities| < MaxEntities {
      RelatedStopped(RelatedStepOf(a, seed, candidates[0]), seed, candidates[1..]);
    }
  }

  /** The relationships added are exactly one per handled candidate, in candidate order. */
  lemma {:induction false} RelatedEmitted(a: Acc, seed: string, candidates: seq<RelatedEntry>)
    ensures RelatedFrom(a, seed, candidates).relationships
         == a.relationships + Emitted(seed, candidates[..RelatedHandled(a, seed, candidates)])
    decreases |candidates|
  {
    if candidates != [] && |a.entities| < MaxEntities {
      var c := RelatedStepOf(a, seed, candidates[0]);
      var m := RelatedHandled(c, seed, candidates[1..]);
      RelatedEmitted(c, seed, candidates[1..]);
      EmittedCons(seed, candidates, m);
    } else {
      assert Emitted(seed, candidates[..0]) == [];
    }
  }

  /** Every handled candidate's entity is held afterwards. */
  lemma {:induction false} RelatedHeld(a: Acc, seed: string, candidates: seq<RelatedEntry>)
    ensures forall j :: 0 <= j < RelatedHandled(a, seed, candidates) ==>
              candidates[j].entity.name.value in RelatedFrom(a, seed, candidates).seenEntities
    decreases |candidates|
  {
    if candidates != [] && |a.entities| < MaxEntities {
      var c := RelatedStepOf(a, seed, candidates[0]);
      var b := RelatedFrom(c, seed, candidates[1..]);
      RelatedHeld(c, seed, candidates[1..]);
      forall j | 0 <= j < RelatedHandled(a, seed, candidates)
        ensures candidates[j].entity.name.value in b.seenEntities
      {
        if j > 0 {
          assert candidates[1..][j - 1] == candidates[j];
        }
      }
    }
  }

  /** Each handled candidate adds at most one entity. */
  lemma {:induction false} RelatedCount(a: Acc, seed: string, candidates: seq<RelatedEntry>)
    ensures |RelatedFrom(a, seed, candidates).entities| <= |a.entities| + RelatedHandled(a, seed, candidates)
    decreases |candidates|
  {
    if candidates != [] && |a.entities| < MaxEntities {
      RelatedCount(RelatedStepOf(a, seed, candidates[0]), seed, candidates[1..]);
    }
  }

  /** Every added entity is the entity of a handled candidate. */
  lemma {:induction false} RelatedAdded(a: Acc, seed: string, candidates: seq<RelatedEntry>)
    ensures forall i :: |a.entities| <= i < |RelatedFrom(a, seed, candidates).entities| ==>
              exists j :: 0 <= j < RelatedHandled(a, seed, candidates)
                       && candidates[j].entity == RelatedFrom(a, seed, candidates).entities[i]
    decreases |candidates|
  {
    if candidates != [] && |a.entities| < MaxEntities {
      var c := RelatedStepOf(a, seed, candidates[0]);
      var b := RelatedFrom(c, seed, candidates[1..]);
      var m := RelatedHandled(c, seed, candidates[1..]);
      RelatedAdded(c, seed, candidates[1..]);
      assert RelatedFrom(a, seed, candidates) == b && RelatedHandled(a, seed, candidates) == m + 1;
      forall i | |a.entities| <= i < |b.entities|
        ensures exists j :: 0 <= j < m + 1 && candidates[j].entity == b.entities[i]
      {
        if i < |c.entities| {
          assert b.entities[i] == c.entities[i] == candidates[0].entity;
        } else {
          var j :| 0 <= j < m && candidates[1..][j].entity == b.entities[i];
          assert candidates[1..][j] == candidates[j + 1];
        }
      }
    } else {
      assert RelatedFrom(a, seed, candidates) == a;
    }
  }

  /** What tier 1 emits: one relationship per handled candidate, in order, each from the
      seed; the loop ends early only at `MaxEntities`. */
  lemma RelatedTierFacts(a: Acc, seed: string, candidates: seq<RelatedEntry>)
    requires Inv(a) && |candidates| <= RelatedLimit
    ensures var b := RelatedFrom(a, seed, candidates);
            var emitted := b.relationships[|a.relationships|..];
            && |emitted| <= |candidates|
            && (forall j :: 0 <= j < |emitted| ==> emitted[j] == RelationshipFor(seed, candidates[j]))
            && (|emitted| < |candidates| ==> |b.entities| >= MaxEntities)
            && |b.relationships| <= |a.relationships| + RelatedLimit
            && (forall r :: r in emitted ==> r.subject == Some(seed))
  {
    var b := RelatedFrom(a, seed, candidates);
    RelatedEmitted(a, seed, candidates);
    RelatedStopped(a, seed, candidates);
    var emitted := b.relationships[|a.relationships|..];
    assert emitted == Emitted(seed, candidates[..RelatedHandled(a, seed, candidates)]);
    SubjectsFromSeed(emitted, candidates, seed);
  }

  /** Tier 1, related entities: for each of the first five related entries, while fewer than
      `MaxEntities` entities are held, admit the entity, emit one relationship from the seed
      (whether or not the entity was new) and attach up to two of its documents. */
  method RelatedTier(g: GraphOracle, seed: string, a: Acc) returns (b: Acc)
    requires Inv(a)
    ensures b == RelatedFrom(a, seed, Take(g.relatedEntities(seed, RelatedLimit), RelatedLimit))
    ensures Inv(b) && Extends(a, b)
    ensures b.contexts == a.contexts
    ensures var emitted := b.relationships[|a.relationships|..];
            var candidates := Take(g.relatedEntities(seed, RelatedLimit), RelatedLimit);
            && |emitted| <= |candidates|
            && (forall j :: 0 <= j < |emitted| ==> emitted[j] == RelationshipFor(seed, candidates[j]))
            && (|emitted| < |candidates| ==> |b.entities| >= MaxEntities)
    ensures |b.relationships| <= |a.relationships| + RelatedLimit
    ensures forall r :: r in b.relationships[|a.relationships|..] ==> r.subject == Some(seed)
  {
    var related := g.relatedEntities(seed, RelatedLimit);
    var candidates := Take(related, RelatedLimit);
    b := a;
    for i := 0 to |candidates|
      invariant Inv(b)
      invariant RelatedFrom(b, seed, candidates[i..]) == RelatedFrom(a, seed, candidates)
    {
      if |b.entities| >= MaxEntities {
        break;
      }
      assert candidates[i..][1..] == candidates[i + 1..];
      b := RelatedStep(b, seed, candidates[i]);
    }
    RelatedFromKeeps(a, seed, candidates);
    RelatedTierFacts(a, seed, candidates);
  }

  /** Relationships emitted one per candidate all start at the seed. */
  lemma SubjectsFromSeed(emitted: seq<Relationship>, candidates: seq<RelatedEntry>, seed: string)
    requires |emitted| <= |candidates|
    requires forall j :: 0 <= j < |emitted| ==> emitted[j] == RelationshipFor(seed, candidates[j])
    ensures forall r :: r in emitted ==> r.subject == Some(seed)
  {
    forall r | r in emitted ensures r.subject == Some(seed) {
      var j :| 0 <= j < |emitted| && emitted[j] == r;
      assert r == RelationshipFor(seed, candidates[j]);
    }
  }

  /** The body of the related-entity loop: admit the entity, emit the relationship from the
      seed and, while fewer than `MaxDocs` documents are held, attach up to two of its
      documents. */
  method RelatedStep(a: Acc, seed: string, rel: RelatedEntry) returns (b: Acc)
    requires Inv(a) && |a.entities| < MaxEntities
    ensures b == RelatedStepOf(a, seed, rel)
    ensures Inv(b) && Extends(a, b)
    ensures b.contexts == a.contexts
    ensures b.relationships == a.relationships + [RelationshipFor(seed, rel)]
  {
    RelatedStepKeeps(a, seed, rel);
    AdmitKeeps(a, rel.entity);
    b := Admit(a, rel.entity);
    EmitKeeps(b, seed, rel);
    b := Emit(b, seed, rel);
    if |b.seenDocs| < MaxDocs {
      b := AttachDocuments(b, Take(rel.documents, RelatedDocs));
    }
  }

  /** One neighbour of tier 2: admit its entity and attach at most one of its documents. */
  function NeighborStep(a: Acc, neighbor: NeighborEntry): (b: Acc)
    ensures b.entities == Admit(a, neighbor.entity).entities
    ensures b.seenEntities == a.seenEntities + {neighbor.entity.name.value}
    ensures b.relationships == a.relationships && b.contexts == a.contexts
  {
    Attached(Admit(a, neighbor.entity), Take(neighbor.documents, NeighborDocs))
  }

  /** The neighbour loop of tier 2 from `a`: each candidate in turn, stopping as soon as
      `MaxEntities` entities are held. */
  function NeighborsFrom(a: Acc, candidates: seq<NeighborEntry>): (b: Acc)
    ensures a.entities <= b.entities && a.seenEntities <= b.seenEntities
    ensures b.relationships == a.relationships && b.contexts == a.contexts
    decreases |candidates|
  {
    if candidates == [] || |a.entities| >= MaxEntities then a
    else NeighborsFrom(NeighborStep(a, candidates[0]), candidates[1..])
  }

  /** The neighbour loop keeps the invariant and only adds entities and documents. */
  lemma {:induction false} NeighborsFromKeeps(a: Acc, candidates: seq<NeighborEntry>)
    requires Inv(a)
    ensures Inv(NeighborsFrom(a, candidates)) && Extends(a, NeighborsFrom(a, candidates))
    decreases |candidates|
  {
    if candidates != [] && |a.entities| < MaxEntities {
      var e := candidates[0].entity;
      var admitted := Admit(a, e);
      var c := NeighborStep(a, candidates[0]);
      AdmitKeeps(a, e);
      AttachedKeeps(admitted, Take(candidates[0].documents, NeighborDocs));
      ExtendsTrans(a, admitted, c);
      NeighborsFromKeeps(c, candidates[1..]);
      ExtendsTrans(a, c, NeighborsFrom(c, candidates[1..]));
    }
  }

  /** How many candidates the neighbour loop handles before it ends or `MaxEntities` entities
      are held. */
  function NeighborsHandled(a: Acc, candidates: seq<NeighborEntry>): (n: nat)
    ensures n <= |candidates|
    decreases |candidates|
  {
    if candidates == [] || |a.entities| >= MaxEntities then 0
    else 1 + NeighborsHandled(NeighborStep(a, candidates[0]), candidates[1..])
  }

  /** The loop stops early only when `MaxEntities` entities are held. */
  lemma {:induction false} NeighborsStopped(a: Acc, candidates: seq<NeighborEntry>)
    ensures NeighborsHandled(a, candidates) < |candidates| ==> |NeighborsFrom(a, candidates).entities| >= MaxEntities
    decreases |candidates|
  {
    if candidates != [] && |a.entities| < MaxEntities {
      NeighborsStopped(NeighborStep(a, candidates[0]), candidates[1..]);
    }
  }

  /** Every handled candidate's entity is held afterwards. */
  lemma {:induction false} NeighborsHeld(a: Acc, candidates: seq<NeighborEntry>)
    ensures forall j :: 0 <= j < NeighborsHandled(a, candidates) ==>
              candidates[j].entity.name.value in NeighborsFrom(a, candidates).seenEntities
    decreases |candidates|
  {
    if candidates != [] && |a.entities| < MaxEntities {
      var c := NeighborStep(a, candidates[0]);
      var b := NeighborsFrom(c, candidates[1..]);
      NeighborsHeld(c, candidates[1..]);
      forall j | 0 <= j < NeighborsHandled(a, candidates) ensures candidates[j].entity.name.value in b.seenEntities {
        if j > 0 {
          assert candidates[1..][j - 1] == candidates[j];
        }
      }
    }
  }

  /** Each handled candidate adds at most one entity. */
  lemma {:induction false} NeighborsCount(a: Acc, candidates: seq<NeighborEntry>)
    ensures |NeighborsFrom(a, candidates).entities| <= |a.entities| + NeighborsHandled(a, candidates)
    decreases |candidates|
  {
    if candidates != [] && |a.entities| < MaxEntities {
      NeighborsCount(NeighborStep(a, candidates[0]), candidates[1..]);
    }
  }

  /** Every added entity is the entity of a handled candidate. */
  lemma {:induction false} NeighborsAdded(a: Acc, candidates: seq<NeighborEntry>)
    ensures forall i :: |a.entities| <= i < |NeighborsFrom(a, candidates).entities| ==>
              exists j :: 0 <= j < NeighborsHandled(a, candidates) && candidates[j].entity == NeighborsFrom(a, candidates).entities[i]
    decreases |candidates|
  {
    if candidates != [] && |a.entities| < MaxEntities {
      var c := NeighborStep(a, candidates[0]);
      var b := NeighborsFrom(c, candidates[1..]);
      var m := NeighborsHandled(c, candidates[1..]);
      NeighborsAdded(c, candidates[1..]);
      assert NeighborsFrom(a, candidates) == b && NeighborsHandled(a, candidates) == m + 1;
      forall i | |a.entities| <= i < |b.entities|
        ensures exists j :: 0 <= j < m + 1 && candidates[j].entity == b.entities[i]
      {
        if i < |c.entities| {
          assert b.entities[i] == c.entities[i] == candidates[0].entity;
        } else {
          var j :| 0 <= j < m && candidates[1..][j].entity == b.entities[i];
          assert candidates[1..][j] == candidates[j + 1];
        }
      }
    } else {
      assert NeighborsFrom(a, candidates) == a;
    }
  }

  /** Tier 2, deeper neighbours: for each of the first five neighbours, while fewer than
      `MaxEntities` entities are held, admit the entity and attach at most one of its
      documents. No relationship is emitted. */
  method NeighborTier(g: GraphOracle, seed: string, maxDepth: int, a: Acc) returns (b: Acc)
    requires Inv(a)
    ensures b == NeighborsFrom(a, Take(g.neighbors(seed, maxDepth, NeighborLimit), NeighborLimit))
    ensures Inv(b) && Extends(a, b)
    ensures b.relationships == a.relationships && b.contexts == a.contexts
    ensures |b.entities| <= |a.entities| + NeighborLimit
  {
    var neighbors := g.neighbors(seed, maxDepth, NeighborLimit);
    var candidates := Take(neighbors, NeighborLimit);
    b := a;
    for i := 0 to |candidates|
      invariant Inv(b)
      invariant NeighborsFrom(b, candidates[i..]) == NeighborsFrom(a, candidates)
    {
      if |b.entities| >= MaxEntities {
        break;
      }
      assert candidates[i..][1..] == candidates[i + 1..];
      b := VisitNeighbor(b, candidates[i]);
    }
    NeighborsFromKeeps(a, candidates);
    NeighborsCount(a, candidates);
  }

  /** The body of the neighbour loop: admit the entity and, while fewer than `MaxDocs`
      documents are held, attach at most one of its documents. */
  method VisitNeighbor(a: Acc, neighbor: NeighborEntry) returns (b: Acc)
    requires Inv(a) && |a.entities| < MaxEntities
    ensures b == NeighborStep(a, neighbor)
    ensures Inv(b)
  {
    AdmitKeeps(a, neighbor.entity);
    b := Admit(a, neighbor.entity);
    if |b.seenDocs| < MaxDocs {
      b := AttachDocuments(b, Take(neighbor.documents, NeighborDocs));
    }
  }

  // ---------------------------------------------------------------------------
  // The seed loop as functions: what each step of `traverse_from_entities` leaves behind

  /** The neighbours tier 2 examines: the first five the gateway returns. */
  function NeighborCandidates(g: GraphOracle, seed: string, maxDepth: int): (r: seq<NeighborEntry>)
    ensures r <= g.neighbors(seed, maxDepth, NeighborLimit)
    ensures |r| <= NeighborLimit
  {
    Take(g.neighbors(seed, maxDepth, NeighborLimit), NeighborLimit)
  }

  /** Tier 2 under its gate: the neighbour loop runs only when `maxDepth > 1` and fewer than
      `ExpansionGate` entities are held. */
  function GatedNeighborsOf(g: GraphOracle, seed: string, maxDepth: int, a: Acc): (b: Acc)
  {
    if maxDepth > 1 && |a.entities| < ExpansionGate then NeighborsFrom(a, NeighborCandidates(g, seed, maxDepth))
    else a
  }

  /** Tiers 1 and 2 after the direct hit: the related-entity loop while fewer than
      `ExpansionGate` entities are held, then tier 2 under its own gate, tested on the state
      tier 1 left. */
  function TiersOf(g: GraphOracle, seed: string, maxDepth: int, a: Acc): (b: Acc)
  {
    GatedNeighborsOf(g, seed, maxDepth,
      if |a.entities| < ExpansionGate then RelatedFrom(a, seed, RelatedCandidates(g, seed)) else a)
  }

  /** Tiers 1 and 2 keep the invariant and only add. */
  lemma TiersKeeps(g: GraphOracle, seed: string, maxDepth: int, a: Acc)
    requires Inv(a)
    ensures Inv(TiersOf(g, seed, maxDepth, a)) && Extends(a, TiersOf(g, seed, maxDepth, a))
  {
    var r := if |a.entities| < ExpansionGate then RelatedFrom(a, seed, RelatedCandidates(g, seed)) else a;
    RelatedFromKeeps(a, seed, RelatedCandidates(g, seed));
    NeighborsFromKeeps(r, NeighborCandidates(g, seed, maxDepth));
    ExtendsTrans(a, r, TiersOf(g, seed, maxDepth, a));
  }

  /** Tiers 1 and 2 add at most five relationships, all from the seed. */
  lemma TiersRelations(g: GraphOracle, seed: string, maxDepth: int, a: Acc)
    requires Inv(a)
    ensures var b := TiersOf(g, seed, maxDepth, a);
            && |b.relationships| <= |a.relationships| + RelatedLimit
            && (forall r :: r in b.relationships[|a.relationships|..] ==> r.subject == Some(seed))
  {
    if |a.entities| < ExpansionGate {
      RelatedTierFacts(a, seed, RelatedCandidates(g, seed));
    }
  }

  /** A found seed: admit its entity, run the tier-0 document loop over its mentions, then
      tiers 1 and 2. */
  function ExpandHitOf(g: GraphOracle, seed: string, maxDepth: int, a: Acc, hit: EntityWithDocs): (b: Acc)
  {
    TiersOf(g, seed, maxDepth, DirectHitOf(Admit(a, hit.entity), hit.entity.name.value, hit.documents))
  }

  /** Expanding a found seed keeps the invariant, only adds, and adds at most five
      relationships, all from the seed. */
  lemma ExpandHitKeeps(g: GraphOracle, seed: string, maxDepth: int, a: Acc, hit: EntityWithDocs)
    requires Inv(a) && |a.entities| < MaxEntities
    ensures var b := ExpandHitOf(g, seed, maxDepth, a, hit);
            && Inv(b) && Extends(a, b)
            && |b.relationships| <= |a.relationships| + RelatedLimit
            && (forall r :: r in b.relationships[|a.relationships|..] ==> r.subject == Some(seed))
  {
    var admitted := Admit(a, hit.entity);
    AdmitKeeps(a, hit.entity);
    var d := DirectHitOf(admitted, hit.entity.name.value, hit.documents);
    DirectHitOfKeeps(admitted, hit.entity.name.value, hit.documents);
    ExtendsTrans(a, admitted, d);
    TiersKeeps(g, seed, maxDepth, d);
    TiersRelations(g, seed, maxDepth, d);
    ExtendsTrans(a, d, ExpandHitOf(g, seed, maxDepth, a, hit));
  }

  /** One seed of the seed loop: a seed the gateway does not find changes nothing; a found
      one is expanded. */
  function SeedOf(g: GraphOracle, seed: string, maxDepth: int, a: Acc): (b: Acc)
  {
    match g.entityWithDocuments(seed, SeedDocLimit)
    case None => a
    case Some(hit) => ExpandHitOf(g, seed, maxDepth, a, hit)
  }

  /** The seed loop from `a`: each seed in turn, stopping as soon as `MaxEntities` entities
      are held. */
  function TraverseOf(g: GraphOracle, seeds: seq<string>, maxDepth: int, a: Acc): (b: Acc)
    decreases |seeds|
  {
    if seeds == [] || |a.entities| >= MaxEntities then a
    else TraverseOf(g, seeds[1..], maxDepth, SeedOf(g, seeds[0], maxDepth, a))
  }

  /** How many seeds the seed loop handles before it ends or `MaxEntities` entities are held. */
  function SeedsHandled(g: GraphOracle, seeds: seq<string>, maxDepth: int, a: Acc): (n: nat)
    ensures n <= |seeds|
    decreases |seeds|
  {
    if seeds == [] || |a.entities| >= MaxEntities then 0
    else 1 + SeedsHandled(g, seeds[1..], maxDepth, SeedOf(g, seeds[0], maxDepth, a))
  }

  /** The seed loop keeps the invariant, only adds, and each handled seed adds at most five
      relationships, all from that seed. */
  lemma {:induction false} TraverseKeeps(g: GraphOracle, seeds: seq<string>, maxDepth: int, a: Acc)
    requires Inv(a)
    ensures var b := TraverseOf(g, seeds, maxDepth, a);
            && Inv(b) && Extends(a, b)
            && |b.relationships| <= |a.relationships| + RelatedLimit * SeedsHandled(g, seeds, maxDepth, a)
            && (forall r :: r in b.relationships[|a.relationships|..] ==> r.subject.Some? && r.subject.value in seeds)
    decreases |seeds|
  {
    if seeds != [] && |a.entities| < MaxEntities {
      var c := SeedOf(g, seeds[0], maxDepth, a);
      var b := TraverseOf(g, seeds[1..], maxDepth, c);
      if g.entityWithDocuments(seeds[0], SeedDocLimit).Some? {
        ExpandHitKeeps(g, seeds[0], maxDepth, a, g.entityWithDocuments(seeds[0], SeedDocLimit).value);
      }
      TraverseKeeps(g, seeds[1..], maxDepth, c);
      ExtendsTrans(a, c, b);
      SplitNew(a.relationships, c.relationships, b.relationships);
      forall r | r in b.relationships[|a.relationships|..] ensures r.subject.Some? && r.subject.value in seeds {
        if r in c.relationships[|a.relationships|..] {
          assert r.subject == Some(seeds[0]);
        } else {
          assert r.subject.value in seeds[1..];
        }
      }
    }
  }

  /** What `b` adds after `a` is what `c` adds after `a` followed by what `b` adds after `c`. */
  lemma SplitNew<T>(a: seq<T>, c: seq<T>, b: seq<T>)
    requires a <= c <= b
    ensures forall r :: r in b[|a|..] ==> r in c[|a|..] || r in b[|c|..]
  {
    assert b[|a|..] == c[|a|..] + b[|c|..];
  }

  /** Once the seeds run out or `MaxEntities` entities are held, the seed loop changes
      nothing. */
  lemma TraverseDone(g: GraphOracle, seeds: seq<string>, maxDepth: int, a: Acc)
    requires seeds == [] || |a.entities| >= MaxEntities
    ensures TraverseOf(g, seeds, maxDepth, a) == a && SeedsHandled(g, seeds, maxDepth, a) == 0
  {
  }

  /** The seed loop stops early only when `MaxEntities` entities are held. */
  lemma {:induction false} TraverseStopped(g: GraphOracle, seeds: seq<string>, maxDepth: int, a: Acc)
    ensures SeedsHandled(g, seeds, maxDepth, a) < |seeds| ==>
              |TraverseOf(g, seeds, maxDepth, a).entities| >= MaxEntities
    decreases |seeds|
  {
    if seeds != [] && |a.entities| < MaxEntities {
      TraverseStopped(g, seeds[1..], maxDepth, SeedOf(g, seeds[0], maxDepth, a));
    }
  }

  /** A seed only adds held entities, and a found seed's entity is held afterwards. */
  lemma SeedFound(g: GraphOracle, seed: string, maxDepth: int, a: Acc)
    ensures a.seenEntities <= SeedOf(g, seed, maxDepth, a).seenEntities
    ensures g.entityWithDocuments(seed, SeedDocLimit).Some? ==>
              g.entityWithDocuments(seed, SeedDocLimit).value.entity.name.value in SeedOf(g, seed, maxDepth, a).seenEntities
  {
    if g.entityWithDocuments(seed, SeedDocLimit).Some? {
      var hit := g.entityWithDocuments(seed, SeedDocLimit).value;
      var d := DirectHitOf(Admit(a, hit.entity), hit.entity.name.value, hit.documents);
      var r := if |d.entities| < ExpansionGate then RelatedFrom(d, seed, RelatedCandidates(g, seed)) else d;
      assert d.seenEntities <= r.seenEntities <= GatedNeighborsOf(g, seed, maxDepth, r).seenEntities;
    }
  }

  /** The seed loop only adds held entities. */
  lemma {:induction false} TraverseGrows(g: GraphOracle, seeds: seq<string>, maxDepth: int, a: Acc)
    ensures a.seenEntities <= TraverseOf(g, seeds, maxDepth, a).seenEntities
    decreases |seeds|
  {
    if seeds != [] && |a.entities| < MaxEntities {
      SeedFound(g, seeds[0], maxDepth, a);
      TraverseGrows(g, seeds[1..], maxDepth, SeedOf(g, seeds[0], maxDepth, a));
    }
  }

  /** Every handled seed the gateway finds has its entity held at the end. */
  lemma {:induction false} TraverseFound(g: GraphOracle, seeds: seq<string>, maxDepth: int, a: Acc)
    ensures forall j :: 0 <= j < SeedsHandled(g, seeds, maxDepth, a) && g.entityWithDocuments(seeds[j], SeedDocLimit).Some? ==>
              g.entityWithDocuments(seeds[j], SeedDocLimit).value.entity.name.value
                in TraverseOf(g, seeds, maxDepth, a).seenEntities
    decreases |seeds|
  {
    if seeds != [] && |a.entities| < MaxEntities {
      var c := SeedOf(g, seeds[0], maxDepth, a);
      TraverseFound(g, seeds[1..], maxDepth, c);
      SeedFound(g, seeds[0], maxDepth, a);
      TraverseGrows(g, seeds[1..], maxDepth, c);
      forall j | 0 <= j < SeedsHandled(g, seeds, maxDepth, a) && g.entityWithDocuments(seeds[j], SeedDocLimit).Some?
        ensures g.entityWithDocuments(seeds[j], SeedDocLimit).value.entity.name.value
                  in TraverseOf(g, seeds, maxDepth, a).seenEntities
      {
        if j > 0 {
          assert seeds[1..][j - 1] == seeds[j];
        }
      }
    }
  }

  /** The names of the entity lookups in `trace`, in order. */
  ghost function LookedUp(trace: seq<Query>): (names: seq<string>)
    ensures |names| <= |trace|
    decreases |trace|
  {
    if trace == [] then []
    else (if trace[0].EntityLookup? then [trace[0].name] else []) + LookedUp(trace[1..])
  }

  /** The lookups of two traces in a row are those of the first, then those of the second. */
  lemma {:induction false} LookedUpAppend(x: seq<Query>, y: seq<Query>)
    ensures LookedUp(x + y) == LookedUp(x) + LookedUp(y)
    decreases |x|
  {
    if x == [] {
      assert x + y == y;
    } else {
      var head := if x[0].EntityLookup? then [x[0].name] else [];
      assert (x + y)[0] == x[0] && (x + y)[1..] == x[1..] + y;
      assert LookedUp(x + y) == head + LookedUp(x[1..] + y);
      LookedUpAppend(x[1..], y);
      assert LookedUp(x) == head + LookedUp(x[1..]);
    }
  }

  /** A trace that opens with the lookup of `seed` and holds no other lookup looks up
      exactly `seed`. */
  lemma {:induction false} LookedUpOne(calls: seq<Query>, seed: string)
    requires |calls| >= 1 && calls[0].EntityLookup? && calls[0].name == seed
    requires forall q :: q in calls[1..] ==> !q.EntityLookup?
    ensures LookedUp(calls) == [seed]
  {
    LookedUpNone(calls[1..]);
  }

  /** A trace without entity lookups looks nothing up. */
  lemma {:induction false} LookedUpNone(t: seq<Query>)
    requires forall q :: q in t ==> !q.EntityLookup?
    ensures LookedUp(t) == []
    decreases |t|
  {
    if t != [] {
      assert forall q :: q in t[1..] ==> q in t;
      LookedUpNone(t[1..]);
    }
  }

  /** The traversal's result as the context it returns. */
  function ToContext(a: Acc): (ctx: TraversalContext)
    ensures ctx.entities == a.entities && ctx.relationships == a.relationships
    ensures ctx.documents == a.docs && ctx.contexts == a.contexts
  {
    TraversalContext(a.entities, a.relationships, a.docs, a.contexts)
  }

  /** The body of the seed loop: the tier-0 lookup, then tier 1 while fewer than
      `ExpansionGate` entities are held, then tier 2 when additionally `maxDepth > 1`. */
  method ExpandSeed(g: GraphOracle, seed: string, maxDepth: int, a: Acc)
    returns (b: Acc, ghost calls: seq<Query>)
    requires Inv(a) && |a.entities| < MaxEntities
    ensures b == SeedOf(g, seed, maxDepth, a)
    ensures Inv(b) && Extends(a, b)
    ensures |b.relationships| <= |a.relationships| + RelatedLimit
    ensures forall r :: r in b.relationships[|a.relationships|..] ==> r.subject == Some(seed)
    ensures |calls| >= 1 && calls[0] == EntityLookup(seed, |a.entities|)
    ensures LookedUp(calls) == [seed]
    ensures g.entityWithDocuments(seed, SeedDocLimit).None? ==> b == a && calls == [EntityLookup(seed, |a.entities|)]
    ensures forall q :: q in calls ==> q.name == seed
    ensures forall q :: q in calls[1..] ==>
              !q.EntityLookup? && q.held < ExpansionGate && g.entityWithDocuments(seed, SeedDocLimit).Some?
    ensures forall q :: q in calls && q.NeighborLookup? ==> maxDepth > 1 && q.depth == maxDepth
  {
    calls := [EntityLookup(seed, |a.entities|)];
    b := a;
    var entityData := g.entityWithDocuments(seed, SeedDocLimit);
    if entityData.Some? {
      ghost var more;
      b, more := ExpandHit(g, seed, maxDepth, a, entityData.value);
      calls := calls + more;
      assert calls[1..] == more;
    }
    LookedUpOne(calls, seed);
  }

  /** The seed loop body once the seed was found: tier 0, then tiers 1 and 2 under their
      gates. `more` records the gated lookups. */
  method ExpandHit(g: GraphOracle, seed: string, maxDepth: int, a: Acc, hit: EntityWithDocs)
    returns (b: Acc, ghost more: seq<Query>)
    requires Inv(a) && |a.entities| < MaxEntities
    ensures b == ExpandHitOf(g, seed, maxDepth, a, hit)
    ensures Inv(b) && Extends(a, b)
    ensures |b.relationships| <= |a.relationships| + RelatedLimit
    ensures forall r :: r in b.relationships[|a.relationships|..] ==> r.subject == Some(seed)
    ensures forall q :: q in more ==> q.name == seed && !q.EntityLookup? && q.held < ExpansionGate
    ensures forall q :: q in more && q.NeighborLookup? ==> maxDepth > 1 && q.depth == maxDepth
  {
    var hitState := DirectHit(a, hit);
    b, more := GatedTiers(g, seed, maxDepth, hitState);
    ExtendsTrans(a, hitState, b);
  }

  /** Tiers 1 and 2 after the direct hit: related entities while fewer than `ExpansionGate`
      entities are held, then neighbours when additionally `maxDepth > 1`. */
  method GatedTiers(g: GraphOracle, seed: string, maxDepth: int, a: Acc)
    returns (b: Acc, ghost more: seq<Query>)
    requires Inv(a)
    ensures b == TiersOf(g, seed, maxDepth, a)
    ensures Inv(b) && Extends(a, b)
    ensures b.contexts == a.contexts
    ensures |b.relationships| <= |a.relationships| + RelatedLimit
    ensures forall r :: r in b.relationships[|a.relationships|..] ==> r.subject == Some(seed)
    ensures forall q :: q in more ==> q.name == seed && !q.EntityLookup? && q.held < ExpansionGate
    ensures forall q :: q in more && q.NeighborLookup? ==> maxDepth > 1 && q.depth == maxDepth
  {
    TiersKeeps(g, seed, maxDepth, a);
    TiersRelations(g, seed, maxDepth, a);
    ghost var first, deeper;
    var c;
    c, first := GatedRelated(g, seed, a);
    b, deeper := GatedNeighbors(g, seed, maxDepth, c);
    more := first + deeper;
    GatedQueriesJoin(first, deeper, seed, maxDepth);
  }

  /** The gated lookups of tier 1 followed by those of tier 2 are still gated lookups of
      the seed. */
  lemma GatedQueriesJoin(x: seq<Query>, y: seq<Query>, seed: string, maxDepth: int)
    requires forall q :: q in x ==> q.name == seed && !q.EntityLookup? && q.held < ExpansionGate && !q.NeighborLookup?
    requires forall q :: q in y ==> q.name == seed && q.NeighborLookup? && q.held < ExpansionGate && maxDepth > 1 && q.depth == maxDepth
    ensures forall q :: q in x + y ==> q.name == seed && !q.EntityLookup? && q.held < ExpansionGate
    ensures forall q :: q in x + y && q.NeighborLookup? ==> maxDepth > 1 && q.depth == maxDepth
  {
  }

  /** Tier 1 under its gate: related entities only while fewer than `ExpansionGate` entities
      are held. */
  method GatedRelated(g: GraphOracle, seed: string, a: Acc)
    returns (b: Acc, ghost more: seq<Query>)
    requires Inv(a)
    ensures b == if |a.entities| < ExpansionGate then RelatedFrom(a, seed, RelatedCandidates(g, seed)) else a
    ensures Inv(b)
    ensures more == if |a.entities| < ExpansionGate then [RelatedLookup(seed, |a.entities|)] else []
  {
    more := [];
    b := a;
    if |a.entities| < ExpansionGate {
      more := [RelatedLookup(seed, |a.entities|)];
      b := RelatedTier(g, seed, a);
    }
  }

  /** Tier 2 under its gate: neighbours only when `maxDepth > 1` and fewer than
      `ExpansionGate` entities are held. */
  method GatedNeighbors(g: GraphOracle, seed: string, maxDepth: int, a: Acc)
    returns (b: Acc, ghost more: seq<Query>)
    requires Inv(a)
    ensures b == GatedNeighborsOf(g, seed, maxDepth, a)
    ensures Inv(b) && Extends(a, b)
    ensures b.relationships == a.relationships && b.contexts == a.contexts
    ensures forall q :: q in more ==> q == NeighborLookup(seed, maxDepth, |a.entities|)
    ensures more == [] <==> !(maxDepth > 1 && |a.entities| < ExpansionGate)
  {
    more := [];
    b := a;
    if maxDepth > 1 && |a.entities| < ExpansionGate {
      more := [NeighborLookup(seed, maxDepth, |a.entities|)];
      b := NeighborTier(g, seed, maxDepth, a);
    }
  }

  // ---------------------------------------------------------------------------
  // traverse_from_entities

  /** `traverse_from_entities(entity_names, max_depth)`: expand the graph from the first five
      names, tier by tier, within the entity and document caps. The ghost `trace` lists the
      gateway calls issued, with the number of entities held at each. */
  method TraverseFromEntities(g: GraphOracle, entityNames: seq<string>, maxDepth: int)
    returns (ctx: TraversalContext, ghost trace: seq<Query>)
    // the result is the seed loop's over the first five names, from nothing
    ensures ctx == ToContext(TraverseOf(g, Take(entityNames, MaxSeeds), maxDepth, Start))
    // the first five names are looked up in order; the loop stops early only at MaxEntities
    ensures LookedUp(trace) == Take(entityNames, MaxSeeds)[..SeedsHandled(g, Take(entityNames, MaxSeeds), maxDepth, Start)]
    ensures SeedsHandled(g, Take(entityNames, MaxSeeds), maxDepth, Start) < |Take(entityNames, MaxSeeds)| ==>
              |ctx.entities| >= MaxEntities
    // every looked-up name the gateway finds has its entity in the result
    ensures forall j :: 0 <= j < SeedsHandled(g, Take(entityNames, MaxSeeds), maxDepth, Start) &&
                        g.entityWithDocuments(entityNames[j], SeedDocLimit).Some? ==>
              g.entityWithDocuments(entityNames[j], SeedDocLimit).value.entity.name.value in Names(ctx.entities)
    // an empty seed list gives the empty context
    ensures entityNames == [] ==> ctx == EmptyContext && trace == []
    // entities: named, unique by name, at most MaxEntities
    ensures forall e :: e in ctx.entities ==> e.name.Some?
    ensures Distinct(Names(ctx.entities))
    ensures |ctx.entities| <= MaxEntities
    // documents: a valid dict of at most MaxDocs entries, keyed by their non-empty ids
    ensures ctx.documents.Valid() && ctx.documents.Size() <= MaxDocs
    ensures forall k :: k in ctx.documents.docs ==> k != "" && ctx.documents.docs[k].id == k
    // relationships: at most five per seed, each from a seed to a held entity
    ensures |ctx.relationships| <= RelatedLimit * |Take(entityNames, MaxSeeds)|
    ensures forall r :: r in ctx.relationships ==>
              && r.subject.Some? && r.subject.value in Take(entityNames, MaxSeeds)
              && r.rtype.Some? && r.strength.Some?
              && r.obj.Some? && r.obj.value in Names(ctx.entities)
    // contexts: each names a held entity and carries a non-empty context
    ensures forall c :: c in ctx.contexts ==> c.entity in Names(ctx.entities) && c.context != ""
    // gateway calls: only for the first five names; tier gates respected
    ensures forall q :: q in trace ==> q.name in Take(entityNames, MaxSeeds)
    ensures forall q :: q in trace && q.EntityLookup? ==> q.held < MaxEntities
    ensures forall q :: q in trace && !q.EntityLookup? ==>
              q.held < ExpansionGate && g.entityWithDocuments(q.name, SeedDocLimit).Some?
    ensures forall q :: q in trace && q.NeighborLookup? ==> maxDepth > 1 && q.depth == maxDepth
  {
    var seeds := Take(entityNames, MaxSeeds);
    var a;
    a, trace := SeedLoop(g, seeds, maxDepth);
    TraverseStopped(g, seeds, maxDepth, Start);
    TraverseFound(g, seeds, maxDepth, Start);
    TraverseKeeps(g, seeds, maxDepth, Start);
    assert a.relationships[|Start.relationships|..] == a.relationships;
    ctx := ToContext(a);
    InvContext(a);
  }

  /** The seed loop of `traverse_from_entities` over `seeds`, from nothing: each seed in turn
      until `MaxEntities` entities are held. */
  method SeedLoop(g: GraphOracle, seeds: seq<string>, maxDepth: int) returns (a: Acc, ghost trace: seq<Query>)
    ensures a == TraverseOf(g, seeds, maxDepth, Start) && Inv(a)
    ensures TraceOk(g, seeds, maxDepth, trace)
    ensures LookedUp(trace) == seeds[..SeedsHandled(g, seeds, maxDepth, Start)]
    ensures seeds == [] ==> trace == []
  {
    a := Start;
    trace := [];
    SeedLoopStart(g, seeds, maxDepth);
    var i := 0;
    while i < |seeds| && |a.entities| < MaxEntities
      invariant SeedLoopInv(g, seeds, maxDepth, i, a, trace)
      decreases |seeds| - i
    {
      a, trace := VisitSeed(g, seeds, i, maxDepth, a, trace);
      i := i + 1;
    }
    SeedLoopEnd(g, seeds, maxDepth, i, a, trace);
  }

  /** The state of the seed loop before the `i`-th seed: `a` holds what the earlier seeds
      added, the rest of the loop from `a` gives the loop's result, and the trace looked up
      exactly the earlier seeds. */
  ghost predicate SeedLoopInv(g: GraphOracle, seeds: seq<string>, maxDepth: int, i: nat, a: Acc, trace: seq<Query>) {
    && i <= |seeds| && Inv(a)
    && TraverseOf(g, seeds[i..], maxDepth, a) == TraverseOf(g, seeds, maxDepth, Start)
    && SeedsHandled(g, seeds, maxDepth, Start) == i + SeedsHandled(g, seeds[i..], maxDepth, a)
    && TraceOk(g, seeds, maxDepth, trace) && LookedUp(trace) == seeds[..i]
    && (i == 0 ==> a == Start && trace == [])
  }

  /** The seed loop starts from nothing, with no call made. */
  lemma SeedLoopStart(g: GraphOracle, seeds: seq<string>, maxDepth: int)
    ensures SeedLoopInv(g, seeds, maxDepth, 0, Start, [])
  {
    StartInv();
    assert seeds[0..] == seeds;
  }

  /** Where the seed loop ends, by running out of seeds or by reaching `MaxEntities`, its
      state is the loop's result. */
  lemma SeedLoopEnd(g: GraphOracle, seeds: seq<string>, maxDepth: int, i: nat, a: Acc, trace: seq<Query>)
    requires SeedLoopInv(g, seeds, maxDepth, i, a, trace) && (i == |seeds| || |a.entities| >= MaxEntities)
    ensures a == TraverseOf(g, seeds, maxDepth, Start) && Inv(a)
    ensures TraceOk(g, seeds, maxDepth, trace)
    ensures LookedUp(trace) == seeds[..SeedsHandled(g, seeds, maxDepth, Start)]
    ensures seeds == [] ==> trace == []
  {
    TraverseDone(g, seeds[i..], maxDepth, a);
  }

  /** The gateway calls in `trace` are for `seeds` only and respect the entity cap and the
      tier gates. */
  ghost predicate TraceOk(g: GraphOracle, seeds: seq<string>, maxDepth: int, trace: seq<Query>) {
    && (forall q :: q in trace ==> q.name in seeds)
    && (forall q :: q in trace && q.EntityLookup? ==> q.held < MaxEntities)
    && (forall q :: q in trace && !q.EntityLookup? ==>
          q.held < ExpansionGate && g.entityWithDocuments(q.name, SeedDocLimit).Some?)
    && (forall q :: q in trace && q.NeighborLookup? ==> maxDepth > 1 && q.depth == maxDepth)
  }

  /** The body of the seed loop for the `i`-th seed: expand it and record its gateway calls
      after those of the earlier seeds. */
  method VisitSeed(g: GraphOracle, seeds: seq<string>, i: nat, maxDepth: int, a: Acc, ghost trace: seq<Query>)
    returns (b: Acc, ghost after: seq<Query>)
    requires i < |seeds| && |a.entities| < MaxEntities
    requires SeedLoopInv(g, seeds, maxDepth, i, a, trace)
    ensures b == SeedOf(g, seeds[i], maxDepth, a)
    ensures SeedLoopInv(g, seeds, maxDepth, i + 1, b, after)
  {
    ghost var calls;
    b, calls := ExpandSeed(g, seeds[i], maxDepth, a);
    assert forall q :: q in calls ==> q == calls[0] || q in calls[1..];
    TraverseStep(g, seeds, maxDepth, i, a);
    TraceStep(g, seeds, maxDepth, i, trace, calls);
    after := trace + calls;
  }

  /** Handling the `i`-th seed moves the seed loop on by one seed. */
  lemma TraverseStep(g: GraphOracle, seeds: seq<string>, maxDepth: int, i: nat, a: Acc)
    requires i < |seeds| && |a.entities| < MaxEntities
    ensures TraverseOf(g, seeds[i..], maxDepth, a)
         == TraverseOf(g, seeds[i + 1..], maxDepth, SeedOf(g, seeds[i], maxDepth, a))
    ensures SeedsHandled(g, seeds[i..], maxDepth, a)
         == 1 + SeedsHandled(g, seeds[i + 1..], maxDepth, SeedOf(g, seeds[i], maxDepth, a))
  {
    assert seeds[i..][1..] == seeds[i + 1..];
  }

  /** The calls for the `i`-th seed, appended to those for the earlier seeds, keep the trace
      well-formed and add exactly that seed's lookup. */
  lemma TraceStep(g: GraphOracle, seeds: seq<string>, maxDepth: int, i: nat, trace: seq<Query>, calls: seq<Query>)
    requires i < |seeds|
    requires TraceOk(g, seeds, maxDepth, trace) && LookedUp(trace) == seeds[..i]
    requires TraceOk(g, [seeds[i]], maxDepth, calls) && LookedUp(calls) == [seeds[i]]
    ensures TraceOk(g, seeds, maxDepth, trace + calls) && LookedUp(trace + calls) == seeds[..i + 1]
  {
    LookedUpAppend(trace, calls);
    assert seeds[..i + 1] == seeds[..i] + [seeds[i]];
  }

  /** What the invariant says about the context returned. */
  lemma InvContext(a: Acc)
    requires Inv(a)
    ensures var ctx := ToContext(a);
            && Distinct(Names(ctx.entities))
            && |ctx.entities| <= MaxEntities
            && ctx.documents.Valid() && ctx.documents.Size() <= MaxDocs
            && (forall k :: k in ctx.documents.docs ==> k != "" && ctx.documents.docs[k].id == k)
            && (forall r :: r in ctx.relationships ==>
                  && r.subject.Some? && r.rtype.Some? && r.strength.Some?
                  && r.obj.Some? && r.obj.value in Names(ctx.entities))
            && (forall c :: c in ctx.contexts ==> c.entity in Names(ctx.entities) && c.context != "")
            && (forall n :: n in a.seenEntities <==> n in Names(ctx.entities))
  {
    SeenDocsSize(a);
  }
}
