/** The value records that flow through the retrieval pipeline: entities, relationships,
    document excerpts, mention contexts and the traversal context that holds them. The source
    keeps each of them as a Python dict; a key that the dict may lack is an `Option` field
    here, and `None` stands for the absent key. */
module Records {
  import opened Wrappers
  import opened PyStr

  /** A graph entity: its `name`, `type` and the optional `source_document` citation. */
  datatype Entity = Entity(name: Option<string>, etype: Option<string>, sourceDocument: Option<string>)

  /** An entity as the graph gateway returns it: graph nodes always carry a name. */
  type GraphEntity = e: Entity | e.name.Some? witness Entity(Some(""), None, None)

  /** The names of entities that carry one, in order. */
  function Names(es: seq<Entity>): (r: seq<string>)
    requires forall e :: e in es ==> e.name.Some?
    ensures |r| == |es|
    ensures forall i :: 0 <= i < |es| ==> r[i] == es[i].name.value
  {
    seq(|es|, i requires 0 <= i < |es| => es[i].name.value)
  }

  /** A relationship record: `subject`, `type`, `object` and `strength`. */
  datatype Relationship = Relationship(
    subject: Option<string>, rtype: Option<string>, obj: Option<string>, strength: Option<int>)

  /** A document excerpt: `id`, `title` and `text`. */
  datatype Document = Document(id: string, title: Option<string>, text: Option<string>)

  /** A Python dict from document id to document: the keys in insertion order and the map. */
  datatype DocStore = DocStore(order: seq<string>, docs: map<string, Document>) {

    /** The keys are listed once each, and exactly the keys of the map are listed. */
    predicate Valid() {
      Distinct(order) && (forall k :: k in order ==> k in docs) && (forall k :: k in docs ==> k in order)
    }

    /** `len(documents)` */
    function Size(): nat {
      |order|
    }
  }

  /** The empty dict `{}`. */
  const EmptyStore := DocStore([], map[])

  /** A valid store has as many listed keys as map entries. */
  lemma StoreSize(s: DocStore)
    requires s.Valid()
    ensures |s.docs| == s.Size()
  {
    DistinctCard(s.order);
    assert s.docs.Keys == set k | k in s.order;
  }

  /** A sequence without repeats has as many distinct elements as entries. */
  lemma {:induction false} DistinctCard(xs: seq<string>)
    requires Distinct(xs)
    ensures |set x | x in xs| == |xs|
  {
    if xs != [] {
      var t := xs[1..];
      assert Distinct(t) by {
        forall i, j | 0 <= i < j < |t| ensures t[i] != t[j] {
          assert t[i] == xs[i + 1] && t[j] == xs[j + 1];
        }
      }
      DistinctCard(t);
      assert xs[0] !in t by {
        forall i | 0 <= i < |t| ensures t[i] != xs[0] {
          assert t[i] == xs[i + 1];
        }
      }
      assert xs == [xs[0]] + t;
      assert (set x | x in xs) == {xs[0]} + set x | x in t;
    }
  }

  /** One recorded mention: the entity, the document it was found in and the text around it. */
  datatype MentionContext = MentionContext(
    entity: string, docId: Option<string>, docTitle: Option<string>, context: string)

  /** A path found between two entities: its `nodes` and its `relationships`. */
  datatype GraphPath = GraphPath(nodes: seq<Entity>, relationships: seq<Relationship>)

  /** The per-question context `{'entities', 'relationships', 'documents', 'contexts'}`. */
  datatype TraversalContext = TraversalContext(
    entities: seq<Entity>, relationships: seq<Relationship>, documents: DocStore,
    contexts: seq<MentionContext>)

  /** The empty context the traversal starts from. */
  const EmptyContext := TraversalContext([], [], EmptyStore, [])

  /** An entity as the extractor emits it: its `text` and, when the dict has one, its
      `label` (the character offsets it also carries are not used by the core). */
  datatype ExtractedEntity = ExtractedEntity(text: string, entityLabel: Option<string>)
}
