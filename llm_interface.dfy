/** `LLMInterface.format_context` (src/rag/llm_interface.py): the graph context as plain
    text for the prompt, one line per entity and one per relationship, uncapped. */
module LlmFormatting {
  import opened Wrappers
  import opened PyStr
  import opened Records

  const EntitiesTitle := "Entités pertinentes:"
  const RelationsTitle := "Relations:"
  const BlockGap := "\n\n"

  /** Every entity has a name: `e['name']` raises otherwise. */
  predicate AllNamed(es: seq<Entity>) {
    forall i :: 0 <= i < |es| ==> es[i].name.Some?
  }

  /** One entity line: a bullet, the name and the type in parentheses (`unknown` when absent). */
  function EntityLine(e: Entity): string
    requires e.name.Some?
  {
    "- " + e.name.value + " (" + e.etype.GetOr("unknown") + ")"
  }

  /** One relation line: subject, type in an arrow and object, with `?` and `relates to` as defaults. */
  function RelationLine(r: Relationship): string {
    "- " + r.subject.GetOr("?") + " --[" + r.rtype.GetOr("relates to") + "]--> " + r.obj.GetOr("?")
  }

  /** The entity lines, in order. */
  function EntityLines(es: seq<Entity>): (r: seq<string>)
    requires AllNamed(es)
    ensures |r| == |es|
  {
    seq(|es|, i requires 0 <= i < |es| && AllNamed(es) => EntityLine(es[i]))
  }

  /** The relation lines, in order. */
  function RelationLines(rs: seq<Relationship>): (r: seq<string>)
    ensures |r| == |rs|
  {
    seq(|rs|, i requires 0 <= i < |rs| => RelationLine(rs[i]))
  }

  /** The entity block: its title line, then the entity lines. */
  function EntityBlock(es: seq<Entity>): string
    requires AllNamed(es)
  {
    EntitiesTitle + "\n" + Join("\n", EntityLines(es))
  }

  /** The relation block: an empty line, its title line, then the relation lines. */
  function RelationBlock(rs: seq<Relationship>): string {
    "\n" + RelationsTitle + "\n" + Join("\n", RelationLines(rs))
  }

  /** `format_context(graph_context)`: the entity block, then the relation block, each only
      when its list is non-empty, separated by a blank line. */
  function FormatContext(es: seq<Entity>, rs: seq<Relationship>): string
    requires AllNamed(es)
  {
    Join(BlockGap, (if es != [] then [EntityBlock(es)] else []) + (if rs != [] then [RelationBlock(rs)] else []))
  }

  /** Nothing to say gives the empty string; otherwise the entity block comes first. */
  lemma FormatContextBlocks(es: seq<Entity>, rs: seq<Relationship>)
    requires AllNamed(es)
    ensures es == [] && rs == [] ==> FormatContext(es, rs) == ""
    ensures es != [] && rs == [] ==> FormatContext(es, rs) == EntityBlock(es)
    ensures es == [] && rs != [] ==> FormatContext(es, rs) == RelationBlock(rs)
    ensures es != [] && rs != [] ==> FormatContext(es, rs) == EntityBlock(es) + BlockGap + RelationBlock(rs)
  {
    if es != [] && rs != [] {
      JoinCons(BlockGap, EntityBlock(es), [RelationBlock(rs)]);
      assert [EntityBlock(es)] + [RelationBlock(rs)] == [EntityBlock(es), RelationBlock(rs)];
    }
  }

  /** Joining a head onto a non-empty tail puts the separator between them. */
  lemma JoinCons(sep: string, head: string, tail: seq<string>)
    requires tail != []
    ensures Join(sep, [head] + tail) == head + sep + Join(sep, tail)
  {
    assert ([head] + tail)[1..] == tail;
  }

  /** No field that an entity line shows holds a line break. */
  predicate EntitiesOneLine(es: seq<Entity>) {
    forall i :: 0 <= i < |es| ==>
      (es[i].name.Some? ==> '\n' !in es[i].name.value) && '\n' !in es[i].etype.GetOr("unknown")
  }

  /** No field that a relation line shows holds a line break. */
  predicate RelationsOneLine(rs: seq<Relationship>) {
    forall i :: 0 <= i < |rs| ==>
      '\n' !in rs[i].subject.GetOr("?") && '\n' !in rs[i].rtype.GetOr("relates to") && '\n' !in rs[i].obj.GetOr("?")
  }

  /** The entity block reads back, line by line, as its title and one line per entity in order. */
  lemma EntityBlockLines(es: seq<Entity>)
    requires AllNamed(es) && es != []
    requires EntitiesOneLine(es)
    ensures Split(EntityBlock(es), "\n") == [EntitiesTitle] + EntityLines(es)
  {
    var lines := EntityLines(es);
    forall i | 0 <= i < |lines| ensures '\n' !in lines[i] {
      var e := es[i];
      assert lines[i] == "- " + e.name.value + " (" + e.etype.GetOr("unknown") + ")";
    }
    JoinCons("\n", EntitiesTitle, lines);
    SplitJoin('\n', [EntitiesTitle] + lines);
  }

  /** The relation block reads back, line by line, as an empty line, its title and one line per
      relation in order. */
  lemma RelationBlockLines(rs: seq<Relationship>)
    requires rs != []
    requires RelationsOneLine(rs)
    ensures Split(RelationBlock(rs), "\n") == ["", RelationsTitle] + RelationLines(rs)
  {
    var lines := RelationLines(rs);
    forall i | 0 <= i < |lines| ensures '\n' !in lines[i] {
      var r := rs[i];
      assert lines[i] == "- " + r.subject.GetOr("?") + " --[" + r.rtype.GetOr("relates to") + "]--> " + r.obj.GetOr("?");
    }
    var all := ["", RelationsTitle] + lines;
    var j := Join("\n", lines);
    JoinCons("\n", RelationsTitle, lines);
    JoinCons("\n", "", [RelationsTitle] + lines);
    assert [""] + ([RelationsTitle] + lines) == all;
    assert Join("\n", all) == "" + "\n" + (RelationsTitle + "\n" + j);
    assert "" + "\n" + (RelationsTitle + "\n" + j) == RelationBlock(rs);
    SplitJoin('\n', all);
  }
}
