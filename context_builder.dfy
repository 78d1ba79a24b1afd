/** `ContextBuilder` (src/rag/context_builder.py): renders the graph results as a Markdown
    context with capped sections (10 entities, 15 relations, 3 paths), truncated with a marker
    past `max_context_length`; and lists the documents the entities cite. */
module ContextBuilding {
  import opened Wrappers
  import opened PyStr
  import opened Records

  /** The graph results `build_context` reads: `entities`, `relationships` and `paths`. */
  datatype GraphResults = GraphResults(entities: seq<Entity>, relationships: seq<Relationship>, paths: seq<GraphPath>)

  /** A builder fixes its `max_context_length` (3000 by default) at construction. */
  datatype ContextBuilder = ContextBuilder(maxContextLength: int)

  const DefaultMaxContextLength := 3000
  const MaxEntities := 10
  const MaxRelations := 15
  const MaxPaths := 3
  const EntitiesHeader := "## Entités pertinentes\n\n"
  const RelationsHeader := "## Relations identifiées\n\n"
  const PathsHeader := "## Chemins dans le graphe\n\n"
  const SectionGap := "\n\n"
  const Truncated := "\n\n[Contexte tronqué...]"

  // ---------------------------------------------------------------------------
  // The lines

  /** One entity line: a bullet, the name in bold (`N/A` when absent), the type in parentheses (`unknown` when absent). */
  function EntityLine(e: Entity): string {
    "- **" + e.name.GetOr("N/A") + "** (" + e.etype.GetOr("unknown") + ")\n"
  }

  /** `f"- {subject} → [{predicate}] → {obj}\n"` with the defaults `?`, `relates to`, `?`. */
  function RelationLine(r: Relationship): string {
    "- " + r.subject.GetOr("?") + " → [" + r.rtype.GetOr("relates to") + "] → " + r.obj.GetOr("?") + "\n"
  }

  /** The decimal digits of `n`, as `f"{n}"` writes them. */
  function ShowNat(n: nat): (r: string)
    ensures |r| >= 1
    ensures Digits(r)
    ensures r[0] == '0' ==> n == 0
  {
    var d := ['0' + (n % 10) as char];
    if n < 10 then d else ShowNat(n / 10) + d
  }

  /** Every character is a decimal digit. */
  predicate Digits(s: string) {
    forall i :: 0 <= i < |s| ==> '0' <= s[i] <= '9'
  }

  /** The number a string of decimal digits denotes, as `int(s)` reads it. */
  function DigitsValue(s: string): nat
    requires Digits(s)
  {
    if s == [] then 0 else 10 * DigitsValue(s[..|s| - 1]) + (s[|s| - 1] - '0') as int
  }

  /** Reading back the digits `f"{n}"` writes gives `n`. */
  lemma {:induction false} ShowNatValue(n: nat)
    ensures DigitsValue(ShowNat(n)) == n
  {
    if n >= 10 {
      var init := ShowNat(n / 10);
      var d := ['0' + (n % 10) as char];
      assert (init + d)[..|init|] == init;
      ShowNatValue(n / 10);
    }
  }

  /** The names of a path's nodes, `?` for a node without one. */
  function NodeNames(nodes: seq<Entity>): (r: seq<string>)
    ensures |r| == |nodes|
  {
    seq(|nodes|, i requires 0 <= i < |nodes| => nodes[i].name.GetOr("?"))
  }

  /** `f"{i}. {nodes}\n"` with the node names joined by an arrow. */
  function PathLine(i: nat, p: GraphPath): string {
    ShowNat(i) + ". " + Join(" → ", NodeNames(p.nodes)) + "\n"
  }

  /** The entity lines, in order. */
  function EntityLines(es: seq<Entity>): string {
    if es == [] then "" else EntityLines(es[..|es| - 1]) + EntityLine(es[|es| - 1])
  }

  /** The relation lines, in order. */
  function RelationLines(rs: seq<Relationship>): string {
    if rs == [] then "" else RelationLines(rs[..|rs| - 1]) + RelationLine(rs[|rs| - 1])
  }

  /** The path lines, numbered from 1. */
  function PathLines(ps: seq<GraphPath>): string {
    if ps == [] then "" else PathLines(ps[..|ps| - 1]) + PathLine(|ps|, ps[|ps| - 1])
  }

  /** One more entity adds its line. */
  lemma EntityLinesStep(es: seq<Entity>, i: nat)
    requires i < |es|
    ensures EntityLines(es[..i + 1]) == EntityLines(es[..i]) + EntityLine(es[i])
  {
    assert es[..i + 1][..i] == es[..i];
  }

  /** One more relation adds its line. */
  lemma RelationLinesStep(rs: seq<Relationship>, i: nat)
    requires i < |rs|
    ensures RelationLines(rs[..i + 1]) == RelationLines(rs[..i]) + RelationLine(rs[i])
  {
    assert rs[..i + 1][..i] == rs[..i];
  }

  /** One more path adds its line, numbered `i + 1`. */
  lemma PathLinesStep(ps: seq<GraphPath>, i: nat)
    requires i < |ps|
    ensures PathLines(ps[..i + 1]) == PathLines(ps[..i]) + PathLine(i + 1, ps[i])
  {
    assert ps[..i + 1][..i] == ps[..i];
  }

  /** The sections for the non-empty parts of the results, in the order entities, relations,
      paths, each capped. */
  function Sections(g: GraphResults): (r: seq<string>)
    ensures |r| <= 3
    ensures r == [] <==> g.entities == [] && g.relationships == [] && g.paths == []
  {
    (if g.entities != [] then [EntitiesHeader + EntityLines(Take(g.entities, MaxEntities))] else []) +
    (if g.relationships != [] then [RelationsHeader + RelationLines(Take(g.relationships, MaxRelations))] else []) +
    (if g.paths != [] then [PathsHeader + PathLines(Take(g.paths, MaxPaths))] else [])
  }

  /** `build_context(vector_results, graph_results, include_citations)`: the sections joined
      by blank lines, truncated with a marker past the limit. */
  function BuiltContext(b: ContextBuilder, g: GraphResults): string {
    var full := Join(SectionGap, Sections(g));
    if |full| > b.maxContextLength then Take(full, b.maxContextLength) + Truncated else full
  }

  // ---------------------------------------------------------------------------
  // What the rendering promises

  /** The context fits the limit but for the marker: it is the joined sections when they fit,
      else their first `max_context_length` characters followed by the marker. */
  lemma BuiltContextBound(b: ContextBuilder, g: GraphResults)
    requires 0 <= b.maxContextLength
    ensures var full := Join(SectionGap, Sections(g));
      var r := BuiltContext(b, g);
      |r| <= b.maxContextLength + |Truncated| &&
      (|full| <= b.maxContextLength ==> r == full) &&
      (b.maxContextLength < |full| ==> r == full[..b.maxContextLength] + Truncated)
  {
  }

  /** Empty graph results give the empty context. */
  lemma BuiltContextEmpty(b: ContextBuilder, g: GraphResults)
    requires g.entities == [] && g.relationships == [] && g.paths == []
    requires 0 <= b.maxContextLength
    ensures BuiltContext(b, g) == ""
  {
  }

  /** Each line occurs in the lines it is one of. */
  lemma {:induction false} EntityLinesContain(es: seq<Entity>, i: int)
    requires 0 <= i < |es|
    ensures IsSubstring(EntityLine(es[i]), EntityLines(es))
  {
    var init := es[..|es| - 1];
    var line := EntityLine(es[|es| - 1]);
    if i < |init| {
      EntityLinesContain(init, i);
      assert init[i] == es[i];
      SubstringExtend(EntityLine(es[i]), [], EntityLines(init), line);
      assert [] + EntityLines(init) + line == EntityLines(es);
    } else {
      SubstringSelf(line);
      SubstringExtend(line, EntityLines(init), line, []);
      assert EntityLines(init) + line + [] == EntityLines(es);
    }
  }

  lemma {:induction false} RelationLinesContain(rs: seq<Relationship>, i: int)
    requires 0 <= i < |rs|
    ensures IsSubstring(RelationLine(rs[i]), RelationLines(rs))
  {
    var init := rs[..|rs| - 1];
    var line := RelationLine(rs[|rs| - 1]);
    if i < |init| {
      RelationLinesContain(init, i);
      assert init[i] == rs[i];
      SubstringExtend(RelationLine(rs[i]), [], RelationLines(init), line);
      assert [] + RelationLines(init) + line == RelationLines(rs);
    } else {
      SubstringSelf(line);
      SubstringExtend(line, RelationLines(init), line, []);
      assert RelationLines(init) + line + [] == RelationLines(rs);
    }
  }

  /** A part of a concatenation occurs in it. */
  lemma Occurs(x: string, a: string, c: string)
    ensures IsSubstring(x, a + x + c)
  {
    SubstringSelf(x);
    SubstringExtend(x, a, x, c);
  }

  /** When nothing is truncated, the name of each of the first ten entities occurs in the
      context. */
  lemma {:induction false} BuiltContextNamesEntities(b: ContextBuilder, g: GraphResults, i: int)
    requires 0 <= i < |g.entities| && i < MaxEntities
    requires |Join(SectionGap, Sections(g))| <= b.maxContextLength
    ensures IsSubstring(g.entities[i].name.GetOr("N/A"), BuiltContext(b, g))
  {
    var e := g.entities[i];
    var firsts := Take(g.entities, MaxEntities);
    assert firsts[i] == e;
    var section := EntitiesHeader + EntityLines(firsts);
    var sections := Sections(g);
    assert sections[0] == section;
    Occurs(e.name.GetOr("N/A"), "- **", "** (" + e.etype.GetOr("unknown") + ")\n");
    assert "- **" + e.name.GetOr("N/A") + ("** (" + e.etype.GetOr("unknown") + ")\n") == EntityLine(e);
    EntityLinesContain(firsts, i);
    SubstringTrans(e.name.GetOr("N/A"), EntityLine(e), EntityLines(firsts));
    SubstringExtend(e.name.GetOr("N/A"), EntitiesHeader, EntityLines(firsts), []);
    assert EntitiesHeader + EntityLines(firsts) + [] == section;
    JoinContains(SectionGap, sections, 0);
    SubstringTrans(e.name.GetOr("N/A"), section, Join(SectionGap, sections));
  }

  /** When nothing is truncated, the subject, predicate and object of each of the first
      fifteen relations occur in the context. */
  lemma {:induction false} BuiltContextNamesRelations(b: ContextBuilder, g: GraphResults, i: int)
    requires 0 <= i < |g.relationships| && i < MaxRelations
    requires |Join(SectionGap, Sections(g))| <= b.maxContextLength
    ensures var r := g.relationships[i];
      IsSubstring(r.subject.GetOr("?"), BuiltContext(b, g)) &&
      IsSubstring(r.rtype.GetOr("relates to"), BuiltContext(b, g)) &&
      IsSubstring(r.obj.GetOr("?"), BuiltContext(b, g))
  {
    var r := g.relationships[i];
    RelationLineParts(r);
    RelationLineInContext(b, g, i);
    SubstringTrans(r.subject.GetOr("?"), RelationLine(r), BuiltContext(b, g));
    SubstringTrans(r.rtype.GetOr("relates to"), RelationLine(r), BuiltContext(b, g));
    SubstringTrans(r.obj.GetOr("?"), RelationLine(r), BuiltContext(b, g));
  }

  /** A relation's line shows its subject, predicate and object. */
  lemma RelationLineParts(r: Relationship)
    ensures IsSubstring(r.subject.GetOr("?"), RelationLine(r))
    ensures IsSubstring(r.rtype.GetOr("relates to"), RelationLine(r))
    ensures IsSubstring(r.obj.GetOr("?"), RelationLine(r))
  {
    var line := RelationLine(r);
    var s, p, o := r.subject.GetOr("?"), r.rtype.GetOr("relates to"), r.obj.GetOr("?");
    Occurs(s, "- ", " → [" + p + "] → " + o + "\n");
    assert "- " + s + (" → [" + p + "] → " + o + "\n") == line;
    Occurs(p, "- " + s + " → [", "] → " + o + "\n");
    assert "- " + s + " → [" + p + ("] → " + o + "\n") == line;
    Occurs(o, "- " + s + " → [" + p + "] → ", "\n");
    assert "- " + s + " → [" + p + "] → " + o + "\n" == line;
  }

  /** When nothing is truncated, the line of each of the first fifteen relations occurs in
      the context. */
  lemma RelationLineInContext(b: ContextBuilder, g: GraphResults, i: int)
    requires 0 <= i < |g.relationships| && i < MaxRelations
    requires |Join(SectionGap, Sections(g))| <= b.maxContextLength
    ensures IsSubstring(RelationLine(g.relationships[i]), BuiltContext(b, g))
  {
    var firsts := Take(g.relationships, MaxRelations);
    assert firsts[i] == g.relationships[i];
    var line := RelationLine(firsts[i]);
    var section := RelationsHeader + RelationLines(firsts);
    var sections := Sections(g);
    var k := if g.entities != [] then 1 else 0;
    assert sections[k] == section;
    RelationLinesContain(firsts, i);
    SubstringExtend(line, RelationsHeader, RelationLines(firsts), []);
    assert RelationsHeader + RelationLines(firsts) + [] == section;
    JoinContains(SectionGap, sections, k);
    SubstringTrans(line, section, Join(SectionGap, sections));
  }

  // ---------------------------------------------------------------------------
  // The loops

  /** The entity section: one line for each of the first ten entities. */
  method RenderEntities(entities: seq<Entity>) returns (entitiesText: string)
    ensures entitiesText == EntitiesHeader + EntityLines(Take(entities, MaxEntities))
  {
    var firsts := Take(entities, MaxEntities);
    entitiesText := EntitiesHeader;
    for i := 0 to |firsts|
      invariant entitiesText == EntitiesHeader + EntityLines(firsts[..i])
    {
      EntityLinesStep(firsts, i);
      AppendAssoc(EntitiesHeader, EntityLines(firsts[..i]), EntityLine(firsts[i]));
      entitiesText := entitiesText + EntityLine(firsts[i]);
    }
    assert firsts[..|firsts|] == firsts;
  }

  /** The relation section: one line for each of the first fifteen relations. */
  method RenderRelations(relationships: seq<Relationship>) returns (relsText: string)
    ensures relsText == RelationsHeader + RelationLines(Take(relationships, MaxRelations))
  {
    var firsts := Take(relationships, MaxRelations);
    relsText := RelationsHeader;
    for i := 0 to |firsts|
      invariant relsText == RelationsHeader + RelationLines(firsts[..i])
    {
      RelationLinesStep(firsts, i);
      AppendAssoc(RelationsHeader, RelationLines(firsts[..i]), RelationLine(firsts[i]));
      relsText := relsText + RelationLine(firsts[i]);
    }
    assert firsts[..|firsts|] == firsts;
  }

  /** The path section: one numbered line for each of the first three paths. */
  method RenderPaths(paths: seq<GraphPath>) returns (pathsText: string)
    ensures pathsText == PathsHeader + PathLines(Take(paths, MaxPaths))
  {
    var firsts := Take(paths, MaxPaths);
    pathsText := PathsHeader;
    for i := 0 to |firsts|
      invariant pathsText == PathsHeader + PathLines(firsts[..i])
    {
      PathLinesStep(firsts, i);
      AppendAssoc(PathsHeader, PathLines(firsts[..i]), PathLine(i + 1, firsts[i]));
      pathsText := pathsText + PathLine(i + 1, firsts[i]);
    }
    assert firsts[..|firsts|] == firsts;
  }

  /** `build_context`: the vector results and the citation flag are never read. */
  method BuildContext<V>(b: ContextBuilder, vectorResults: seq<V>, g: GraphResults, includeCitations: bool)
    returns (fullContext: string)
    ensures fullContext == BuiltContext(b, g)
  {
    var contextParts: seq<string> := [];
    if g.entities != [] {
      var entitiesText := RenderEntities(g.entities);
      contextParts := contextParts + [entitiesText];
    }
    if g.relationships != [] {
      var relsText := RenderRelations(g.relationships);
      contextParts := contextParts + [relsText];
    }
    if g.paths != [] {
      var pathsText := RenderPaths(g.paths);
      contextParts := contextParts + [pathsText];
    }
    assert contextParts == Sections(g);
    fullContext := Join(SectionGap, contextParts);
    if |fullContext| > b.maxContextLength {
      fullContext := Take(fullContext, b.maxContextLength) + Truncated;
    }
  }

  // ---------------------------------------------------------------------------
  // format_sources

  /** The `source_document` values the entities carry. */
  function Sources(es: seq<Entity>): set<string> {
    set e | e in es && e.sourceDocument.Some? :: e.sourceDocument.value
  }

  /** `format_sources(graph_results)`: collect the cited documents in a set, then list it.
      Python lists a set in an order it does not specify; any order is allowed here. */
  method FormatSources(entities: seq<Entity>) returns (r: seq<string>)
    ensures Distinct(r)
    ensures forall s :: s in r <==> s in Sources(entities)
    ensures entities == [] ==> r == []
  {
    var sources: set<string> := {};
    for i := 0 to |entities|
      invariant sources == Sources(entities[..i])
    {
      var entity := entities[i];
      assert entities[..i + 1] == entities[..i] + [entity];
      if entity.sourceDocument.Some? {
        sources := sources + {entity.sourceDocument.value};
      }
    }
    assert entities[..|entities|] == entities;
    r := [];
    var rest := sources;
    while rest != {}
      invariant rest <= sources
      invariant Distinct(r)
      invariant forall s :: s in r <==> s in sources && s !in rest
      invariant sources == {} ==> r == []
      decreases |rest|
    {
      var s :| s in rest;
      r := r + [s];
      rest := rest - {s};
    }
  }
}
