/** `ContextCompactor` (src/rag/context_compactor.py): keeps the context handed to the language
    model within a character budget of four characters per token. Documents are cut down to a
    heading, an introduction and the paragraphs richest in copula keywords; the entity,
    relationship and mention lists are capped; the rendered string is truncated with a marker. */
module ContextCompaction {
  import opened Wrappers
  import opened PyStr
  import opened Records

  // ---------------------------------------------------------------------------
  // The budget

  const CharsPerToken := 4

  /** A compactor fixes its token budget at construction; nothing changes it afterwards. */
  datatype ContextCompactor = ContextCompactor(maxTokens: int) {
    /** `max_chars = max_tokens * chars_per_token` */
    function MaxChars(): int {
      maxTokens * CharsPerToken
    }
  }

  /** `estimate_tokens(text)`: whole tokens of four characters. */
  function EstimateTokens(text: string): (r: nat)
    ensures r * CharsPerToken <= |text| < (r + 1) * CharsPerToken
  {
    |text| / CharsPerToken
  }

  /** A text exactly as long as the character budget is estimated at the token budget. */
  lemma {:induction false} BudgetRoundTrip(c: ContextCompactor, text: string)
    requires c.maxTokens >= 0 && |text| == c.MaxChars()
    ensures EstimateTokens(text) == c.maxTokens
  {
    var r := EstimateTokens(text);
    assert r * CharsPerToken <= c.maxTokens * CharsPerToken < (r + 1) * CharsPerToken;
  }

  // ---------------------------------------------------------------------------
  // compact_document: the pieces

  const TitleLines := 5
  const MinParagraph := 50
  const MaxSelected := 5
  const Keywords: seq<string> := ["est", "était", "sont", "étaient", "a été", "ont été", "fut", "furent"]
  const Gap := "\n\n"
  const Elision := "\n\n[...]\n\n"

  /** `line.startswith('#')` */
  predicate IsHeading(line: string) {
    |line| > 0 && line[0] == '#'
  }

  /** The first heading line, stripped, or `""` when there is none. */
  function FirstHeading(lines: seq<string>): string {
    if lines == [] then ""
    else if IsHeading(lines[0]) then Strip(lines[0])
    else FirstHeading(lines[1..])
  }

  /** The title is empty exactly when no line is a heading, and otherwise it is the first
      heading, stripped. */
  lemma {:induction false} FirstHeadingIsFirst(lines: seq<string>)
    ensures FirstHeading(lines) == "" <==> forall i :: 0 <= i < |lines| ==> !IsHeading(lines[i])
    ensures forall i :: 0 <= i < |lines| && IsHeading(lines[i]) && (forall j :: 0 <= j < i ==> !IsHeading(lines[j])) ==>
              FirstHeading(lines) == Strip(lines[i])
  {
    if lines != [] {
      FirstHeadingIsFirst(lines[1..]);
      if IsHeading(lines[0]) {
        StripKeepsFirst(lines[0]);
      } else {
        forall i | 1 <= i < |lines| ensures lines[1..][i - 1] == lines[i] { }
      }
    }
  }

  /** The strip of `p` is longer than 50 characters. */
  predicate LongPiece(p: string) {
    |Strip(p)| > MinParagraph
  }

  /** The stripped pieces longer than 50 characters, in order. */
  function Paragraphs(pieces: seq<string>): (r: seq<string>)
    ensures forall i :: 0 <= i < |r| ==> |r[i]| > MinParagraph
  {
    if pieces == [] then []
    else
      var last := pieces[|pieces| - 1];
      Paragraphs(pieces[..|pieces| - 1]) + (if LongPiece(last) then [Strip(last)] else [])
  }

  /** The paragraphs are `[p.strip() for p in pieces if len(p.strip()) > 50]`: every piece
      whose strip is longer than 50 characters contributes its strip, and no other piece does,
      in the order of the pieces. */
  lemma {:induction false} ParagraphsComprehension(pieces: seq<string>) returns (idx: seq<int>)
    ensures Comprehension(Paragraphs(pieces), pieces, LongPiece, Strip, idx)
  {
    if pieces == [] {
      idx := [];
    } else {
      var init := pieces[..|pieces| - 1];
      var last := pieces[|pieces| - 1];
      var front := ParagraphsComprehension(init);
      ComprehensionSnoc(Paragraphs(init), init, LongPiece, Strip, front, last);
      assert init + [last] == pieces;
      idx := front + (if LongPiece(last) then [|init|] else []);
    }
  }

  /** How many of `kws` occur in `text`. */
  function KeywordHits(kws: seq<string>, text: string): (r: nat)
    ensures r <= |kws|
    ensures r > 0 <==> exists kw :: kw in kws && IsSubstring(kw, text)
  {
    if kws == [] then 0
    else (if IsSubstring(kws[0], text) then 1 else 0) + KeywordHits(kws[1..], text)
  }

  /** The number of keywords that occur in the lower-cased paragraph. */
  function Score(para: string): (r: nat)
    ensures r <= |Keywords|
  {
    KeywordHits(Keywords, Lower(para))
  }

  /** A paragraph with its keyword score. */
  type Scored = (nat, string)

  /** The paragraph has a positive keyword score. */
  predicate HasKeyword(para: string) {
    Score(para) > 0
  }

  /** The paragraph paired with its score. */
  function ScoreOf(para: string): (r: Scored)
    ensures r.1 == para && r.0 <= |Keywords|
  {
    (Score(para), para)
  }

  /** `important_paragraphs` before sorting: every paragraph with a positive score. */
  function Important(paras: seq<string>): (r: seq<Scored>)
    ensures forall i :: 0 <= i < |r| ==> 1 <= r[i].0 <= |Keywords| && r[i].0 == Score(r[i].1)
  {
    if paras == [] then []
    else
      var last := paras[|paras| - 1];
      Important(paras[..|paras| - 1]) + (if HasKeyword(last) then [ScoreOf(last)] else [])
  }

  /** The scored paragraphs are those with a positive score, each paired with its score, every
      such paragraph once, in the order of the paragraphs. */
  lemma {:induction false} ImportantComprehension(paras: seq<string>) returns (idx: seq<int>)
    ensures Comprehension(Important(paras), paras, HasKeyword, ScoreOf, idx)
  {
    if paras == [] {
      idx := [];
    } else {
      var init := paras[..|paras| - 1];
      var last := paras[|paras| - 1];
      var front := ImportantComprehension(init);
      ComprehensionSnoc(Important(init), init, HasKeyword, ScoreOf, front, last);
      assert init + [last] == paras;
      idx := front + (if HasKeyword(last) then [|init|] else []);
    }
  }

  // ---------------------------------------------------------------------------
  // The stable sort by decreasing score

  /** The entries with score `s`, in their original order. */
  function WithScore(xs: seq<Scored>, s: nat): (r: seq<Scored>)
    ensures forall i :: 0 <= i < |r| ==> r[i].0 == s
  {
    if xs == [] then []
    else
      var last := xs[|xs| - 1];
      WithScore(xs[..|xs| - 1], s) + (if last.0 == s then [last] else [])
  }

  /** The entries with scores `s`, `s - 1`, ..., `1`, in that order. */
  function ByScoreFrom(xs: seq<Scored>, s: nat): (r: seq<Scored>)
    ensures forall i :: 0 <= i < |r| ==> 1 <= r[i].0 <= s
  {
    if s == 0 then [] else WithScore(xs, s) + ByScoreFrom(xs, s - 1)
  }

  /** `important_paragraphs.sort(reverse=True, key=lambda x: x[0])`: Python's sort is stable,
      also in reverse, so equal scores keep their order. */
  function SortByScore(xs: seq<Scored>): seq<Scored> {
    ByScoreFrom(xs, |Keywords|)
  }

  /** The sorted entries run from the highest score down. */
  lemma {:induction false} ByScoreFromSorted(xs: seq<Scored>, s: nat)
    ensures forall i, j :: 0 <= i < j < |ByScoreFrom(xs, s)| ==> ByScoreFrom(xs, s)[i].0 >= ByScoreFrom(xs, s)[j].0
  {
    if s > 0 {
      ByScoreFromSorted(xs, s - 1);
      var w := WithScore(xs, s);
      var rest := ByScoreFrom(xs, s - 1);
      var all: seq<Scored> := w + rest;
      forall i, j | 0 <= i < j < |all| ensures all[i].0 >= all[j].0 {
        if j < |w| {
          assert all[i] == w[i] && all[j] == w[j];
        } else if i < |w| {
          assert all[i] == w[i] && all[j] == rest[j - |w|];
        } else {
          assert all[i] == rest[i - |w|] && all[j] == rest[j - |w|];
        }
      }
    }
  }

  /** The entries whose score lies in `1..s`. */
  function ScoreAtMost(xs: seq<Scored>, s: nat): seq<Scored> {
    if xs == [] then []
    else
      var last := xs[|xs| - 1];
      ScoreAtMost(xs[..|xs| - 1], s) + (if 1 <= last.0 <= s then [last] else [])
  }

  lemma {:induction false} ScoreAtMostSplit(xs: seq<Scored>, s: nat)
    requires s > 0
    ensures multiset(ScoreAtMost(xs, s)) == multiset(WithScore(xs, s)) + multiset(ScoreAtMost(xs, s - 1))
  {
    if xs != [] {
      ScoreAtMostSplit(xs[..|xs| - 1], s);
    }
  }

  lemma {:induction false} ByScoreFromPermutes(xs: seq<Scored>, s: nat)
    ensures multiset(ByScoreFrom(xs, s)) == multiset(ScoreAtMost(xs, s))
  {
    if s == 0 {
      ScoreAtMostNone(xs);
    } else {
      ByScoreFromPermutes(xs, s - 1);
      ScoreAtMostSplit(xs, s);
    }
  }

  lemma {:induction false} ScoreAtMostNone(xs: seq<Scored>)
    ensures ScoreAtMost(xs, 0) == []
  {
    if xs != [] {
      ScoreAtMostNone(xs[..|xs| - 1]);
    }
  }

  lemma {:induction false} ScoreAtMostAll(xs: seq<Scored>, s: nat)
    requires forall i :: 0 <= i < |xs| ==> 1 <= xs[i].0 <= s
    ensures ScoreAtMost(xs, s) == xs
  {
    if xs != [] {
      ScoreAtMostAll(xs[..|xs| - 1], s);
      assert xs[..|xs| - 1] + [xs[|xs| - 1]] == xs;
    }
  }

  /** Sorting by score reorders the scored paragraphs, highest score first. */
  lemma SortByScoreSorts(xs: seq<Scored>)
    requires forall i :: 0 <= i < |xs| ==> 1 <= xs[i].0 <= |Keywords|
    ensures multiset(SortByScore(xs)) == multiset(xs)
    ensures forall i, j :: 0 <= i < j < |SortByScore(xs)| ==> SortByScore(xs)[i].0 >= SortByScore(xs)[j].0
  {
    ByScoreFromPermutes(xs, |Keywords|);
    ScoreAtMostAll(xs, |Keywords|);
    ByScoreFromSorted(xs, |Keywords|);
  }

  /** Keeping one score commutes with concatenation. */
  lemma {:induction false} WithScoreAppend(xs: seq<Scored>, ys: seq<Scored>, s: nat)
    ensures WithScore(xs + ys, s) == WithScore(xs, s) + WithScore(ys, s)
    decreases |ys|
  {
    if ys == [] {
      assert xs + ys == xs;
    } else {
      var m := |ys| - 1;
      assert (xs + ys)[..|xs + ys| - 1] == xs + ys[..m];
      WithScoreAppend(xs, ys[..m], s);
    }
  }

  /** Keeping score `s` of entries that all have score `t`. */
  lemma {:induction false} WithScoreUniform(xs: seq<Scored>, s: nat, t: nat)
    requires forall i :: 0 <= i < |xs| ==> xs[i].0 == t
    ensures WithScore(xs, s) == if s == t then xs else []
  {
    if xs != [] {
      WithScoreUniform(xs[..|xs| - 1], s, t);
      assert xs[..|xs| - 1] + [xs[|xs| - 1]] == xs;
    }
  }

  lemma {:induction false} ByScoreFromStable(xs: seq<Scored>, s: nat, t: nat)
    ensures WithScore(ByScoreFrom(xs, t), s) == if 1 <= s <= t then WithScore(xs, s) else []
  {
    if t > 0 {
      ByScoreFromStable(xs, s, t - 1);
      ByScoreFromStep(xs, s, t);
      WithScoreTwice(xs, s, t);
      SplitAtScore(WithScore(WithScore(xs, t), s), WithScore(ByScoreFrom(xs, t - 1), s), WithScore(xs, s), s, t);
    }
  }

  /** Keeping score `s` of the entries of score `t`. */
  lemma WithScoreTwice(xs: seq<Scored>, s: nat, t: nat)
    ensures WithScore(WithScore(xs, t), s) == if s == t then WithScore(xs, s) else []
  {
    WithScoreUniform(WithScore(xs, t), s, t);
  }

  /** The part of score `t` followed by the part of the scores below it. */
  lemma SplitAtScore<T>(a: seq<T>, b: seq<T>, c: seq<T>, s: nat, t: nat)
    requires t > 0
    requires a == (if s == t then c else [])
    requires b == (if 1 <= s <= t - 1 then c else [])
    ensures a + b == if 1 <= s <= t then c else []
  {
    if s == t {
      assert a + [] == a;
    } else {
      assert [] + b == b;
    }
  }

  /** Keeping score `s` of the entries ordered from score `t` down splits at score `t`. */
  lemma ByScoreFromStep(xs: seq<Scored>, s: nat, t: nat)
    requires t > 0
    ensures WithScore(ByScoreFrom(xs, t), s) == WithScore(WithScore(xs, t), s) + WithScore(ByScoreFrom(xs, t - 1), s)
  {
    WithScoreAppend(WithScore(xs, t), ByScoreFrom(xs, t - 1), s);
  }

  /** The sort is stable: the paragraphs of each score keep their original order. */
  lemma SortByScoreStable(xs: seq<Scored>, s: nat)
    requires 1 <= s <= |Keywords|
    ensures WithScore(SortByScore(xs), s) == WithScore(xs, s)
  {
    ByScoreFromStable(xs, s, |Keywords|);
  }

  // ---------------------------------------------------------------------------
  // The greedy selection

  /** The selection loop from the `i`-th candidate on, with `selected` chosen so far and
      running length `cur`: take a paragraph when the running length stays within
      `maxChars`, and stop once the running length reaches `remaining`. */
  function Select(ps: seq<Scored>, i: nat, cur: int, maxChars: int, remaining: int, selected: seq<string>): seq<string>
    requires i <= |ps|
    decreases |ps| - i
  {
    if i == |ps| then selected
    else
      var para := ps[i].1;
      var fits := cur + |para| <= maxChars;
      var cur' := if fits then cur + |para| else cur;
      var selected' := if fits then selected + [para] else selected;
      if cur' >= remaining then selected' else Select(ps, i + 1, cur', maxChars, remaining, selected')
  }

  /** The paragraphs the loop selects from the ranked candidates `ps`. */
  function Selected(ps: seq<Scored>, introLength: int, maxChars: int, remaining: int): seq<string> {
    Select(ps, 0, introLength, maxChars, remaining, [])
  }

  /** The paragraphs selected after a text of length `base` keep the running length within
      `maxChars`, and each is one of the candidates. */
  lemma {:induction false} SelectFits(ps: seq<Scored>, i: nat, base: int, cur: int, maxChars: int, remaining: int,
                                      selected: seq<string>)
    requires i <= |ps|
    requires cur == base + TotalLen(selected) && (selected != [] ==> cur <= maxChars)
    ensures var r := Select(ps, i, cur, maxChars, remaining, selected);
      (r != [] ==> base + TotalLen(r) <= maxChars) &&
      (forall x :: x in r ==> x in selected || exists j :: i <= j < |ps| && ps[j].1 == x)
    decreases |ps| - i
  {
    if i < |ps| {
      var para := ps[i].1;
      var fits := cur + |para| <= maxChars;
      var cur' := if fits then cur + |para| else cur;
      var selected' := if fits then selected + [para] else selected;
      TotalLenAppend(selected, para);
      if cur' < remaining {
        SelectFits(ps, i + 1, base, cur', maxChars, remaining, selected');
      }
    }
  }

  // ---------------------------------------------------------------------------
  // compact_document

  /** The compacted layout: title, introduction, the elision marker, then at most five selected paragraphs separated by blank lines. */
  function Layout(title: string, intro: string, selected: seq<string>): string {
    title + Gap + intro + Elision + Join(Gap, Take(selected, MaxSelected))
  }

  /** The scored paragraphs of a document, highest score first. */
  function Ranked(docText: string): seq<Scored> {
    SortByScore(Important(Paragraphs(Split(docText, Gap))))
  }

  /** The title: the first heading among the first five lines. */
  function Title(docText: string): string {
    FirstHeading(Take(Split(docText, "\n"), TitleLines))
  }

  /** The introduction: the first third of the budget. */
  function Intro(docText: string, maxChars: int): string {
    Take(docText, maxChars / 3)
  }

  /** The paragraphs chosen, best first, to follow the introduction. */
  function Selection(docText: string, maxChars: int): seq<string> {
    Selected(Ranked(docText), |Intro(docText, maxChars)|, maxChars, maxChars - maxChars / 3)
  }

  /** The text `compact_document` assembles before clipping it to `maxChars`. */
  function Assembled(docText: string, maxChars: int): string {
    Layout(Title(docText), Intro(docText, maxChars), Selection(docText, maxChars))
  }

  /** What `compact_document(doc_text, max_chars)` returns: the text itself when it fits,
      else a prefix of the assembled text, never longer than the budget or the input. */
  function CompactedDocument(docText: string, maxChars: int): (r: string)
    ensures |docText| <= maxChars ==> r == docText
    ensures maxChars < |docText| ==> r <= Assembled(docText, maxChars)
    ensures 0 <= maxChars ==> |r| <= maxChars && |r| <= |docText|
  {
    if |docText| <= maxChars then docText else Take(Assembled(docText, maxChars), maxChars)
  }

  /** The title loop: the first heading among the first five lines. */
  method FindTitle(lines: seq<string>) returns (title: string)
    ensures title == FirstHeading(Take(lines, TitleLines))
  {
    var firsts := Take(lines, TitleLines);
    title := "";
    var i := 0;
    while i < |firsts|
      invariant 0 <= i <= |firsts|
      invariant FirstHeading(firsts) == FirstHeading(firsts[i..])
    {
      if IsHeading(firsts[i]) {
        title := Strip(firsts[i]);
        return;
      }
      assert firsts[i..][1..] == firsts[i + 1..];
      i := i + 1;
    }
  }

  /** The scoring loop: pair each paragraph with its score, keeping the positive ones. */
  method ScoreParagraphs(paras: seq<string>) returns (important: seq<Scored>)
    ensures important == Important(paras)
  {
    important := [];
    for i := 0 to |paras|
      invariant important == Important(paras[..i])
    {
      var score := Score(paras[i]);
      assert paras[..i + 1][..i] == paras[..i];
      if score > 0 {
        important := important + [(score, paras[i])];
      }
    }
    assert paras[..|paras|] == paras;
  }

  /** The selection loop over the sorted paragraphs. */
  method SelectParagraphs(ps: seq<Scored>, introLength: int, maxChars: int, remaining: int)
    returns (selected: seq<string>)
    ensures selected == Selected(ps, introLength, maxChars, remaining)
  {
    selected := [];
    var currentLength := introLength;
    for i := 0 to |ps|
      invariant Select(ps, i, currentLength, maxChars, remaining, selected) == Select(ps, 0, introLength, maxChars, remaining, [])
    {
      var para := ps[i].1;
      if currentLength + |para| <= maxChars {
        selected := selected + [para];
        currentLength := currentLength + |para|;
      }
      if currentLength >= remaining {
        return;
      }
    }
  }

  /** Split into paragraphs, keep the long ones with a positive score, sort by score. */
  method RankParagraphs(docText: string) returns (ranked: seq<Scored>)
    ensures ranked == Ranked(docText)
  {
    var paragraphs := Paragraphs(Split(docText, Gap));
    var important := ScoreParagraphs(paragraphs);
    ranked := SortByScore(important);
  }

  /** Rank the paragraphs, then pick them greedily after an introduction of `introLength`
      characters. */
  method ChooseParagraphs(docText: string, introLength: int, maxChars: int) returns (selected: seq<string>)
    ensures selected == Selected(Ranked(docText), introLength, maxChars, maxChars - maxChars / 3)
  {
    var ranked := RankParagraphs(docText);
    selected := SelectParagraphs(ranked, introLength, maxChars, maxChars - maxChars / 3);
  }

  /** Title, introduction and selected paragraphs of a document that does not fit. */
  method AssembleDocument(docText: string, maxChars: int) returns (compacted: string)
    ensures compacted == Assembled(docText, maxChars)
  {
    var title := FindTitle(Split(docText, "\n"));
    var intro := Take(docText, maxChars / 3);
    var selected := ChooseParagraphs(docText, |intro|, maxChars);
    compacted := Layout(title, intro, selected);
  }

  /** `compact_document(doc_text, max_chars)` */
  method CompactDocument(docText: string, maxChars: int) returns (r: string)
    ensures r == CompactedDocument(docText, maxChars)
  {
    if |docText| <= maxChars {
      return docText;
    }
    var compacted := AssembleDocument(docText, maxChars);
    r := Take(compacted, maxChars);
  }

  // ---------------------------------------------------------------------------
  // compact_documents

  const MaxDocChars := 2000

  /** The per-document share of the budget, capped at 2000 characters. */
  function PerDocBudget(n: nat, maxTotalChars: int): int
    requires n > 0
  {
    if MaxDocChars <= maxTotalChars / n then MaxDocChars else maxTotalChars / n
  }

  /** The entry `compact_documents` stores under `key`: the title defaults to the key. */
  function CompactedEntry(key: string, d: Document, budget: int): Document {
    Document(key, Some(d.title.GetOr(key)), Some(CompactedDocument(d.text.GetOr(""), budget)))
  }

  /** `compact_documents(documents, max_total_chars)` */
  function CompactedStore(documents: DocStore, maxTotalChars: int): (r: DocStore)
    requires documents.Valid()
    ensures r.Valid()
    ensures r.order == documents.order && r.docs.Keys == documents.docs.Keys
  {
    if documents.order == [] then EmptyStore
    else
      var budget := PerDocBudget(|documents.order|, maxTotalChars);
      DocStore(documents.order, map k | k in documents.docs :: CompactedEntry(k, documents.docs[k], budget))
  }

  /** Each entry carries its key as id and a title defaulting to that key; under a budget
      that is not negative, each compacted text is no longer than its original, than 2000
      characters, or than an equal share of the budget. */
  lemma CompactedStoreBounds(documents: DocStore, maxTotalChars: int)
    requires documents.Valid()
    ensures var r := CompactedStore(documents, maxTotalChars);
      forall k :: k in r.docs ==>
        r.docs[k].id == k && r.docs[k].title == Some(documents.docs[k].title.GetOr(k)) && r.docs[k].text.Some? &&
        (0 <= maxTotalChars ==>
          |r.docs[k].text.value| <= |documents.docs[k].text.GetOr("")| &&
          |r.docs[k].text.value| <= MaxDocChars && |r.docs[k].text.value| <= maxTotalChars / documents.Size())
  {
    var r := CompactedStore(documents, maxTotalChars);
    if documents.order != [] {
      var budget := PerDocBudget(|documents.order|, maxTotalChars);
      var n := |documents.order|;
      assert 0 <= maxTotalChars ==> 0 <= maxTotalChars / n;
      forall k | k in r.docs
        ensures r.docs[k] == CompactedEntry(k, documents.docs[k], budget)
        ensures 0 <= maxTotalChars ==> 0 <= budget && budget <= MaxDocChars && budget <= maxTotalChars / n
      {
      }
    }
  }

  /** The dict a loop has filled after the keys `keys`, storing `entry(key, docs[key])` under
      each key. */
  function Filled(docs: map<string, Document>, keys: seq<string>, entry: (string, Document) -> Document): map<string, Document>
    requires forall k :: k in keys ==> k in docs
  {
    if keys == [] then map[]
    else
      var key := keys[|keys| - 1];
      Filled(docs, keys[..|keys| - 1], entry)[key := entry(key, docs[key])]
  }

  /** The entry function of `compact_documents` for a per-document budget. */
  function EntryFor(budget: int): (string, Document) -> Document {
    (key, d) => CompactedEntry(key, d, budget)
  }

  /** Filling one more key adds its entry. */
  lemma FilledSnoc(docs: map<string, Document>, keys: seq<string>, key: string, entry: (string, Document) -> Document)
    requires forall k :: k in keys ==> k in docs
    requires key in docs
    ensures forall k :: k in keys + [key] ==> k in docs
    ensures Filled(docs, keys + [key], entry) == Filled(docs, keys, entry)[key := entry(key, docs[key])]
  {
    assert (keys + [key])[..|keys|] == keys;
  }

  /** Filling key by key gives exactly the listed keys, each its entry. */
  lemma {:induction false} FilledEntries(docs: map<string, Document>, keys: seq<string>, entry: (string, Document) -> Document)
    requires forall k :: k in keys ==> k in docs
    ensures forall k :: k in Filled(docs, keys, entry) <==> k in keys
    ensures forall k :: k in keys ==> Filled(docs, keys, entry)[k] == entry(k, docs[k])
  {
    if keys != [] {
      var init, last := keys[..|keys| - 1], keys[|keys| - 1];
      assert keys == init + [last];
      FilledEntries(docs, init, entry);
    }
  }

  /** Filling every key of the map gives every key its entry. */
  lemma FilledAll(docs: map<string, Document>, keys: seq<string>, entry: (string, Document) -> Document)
    requires forall k :: k in keys ==> k in docs
    requires forall k :: k in docs ==> k in keys
    ensures Filled(docs, keys, entry) == map k | k in docs :: entry(k, docs[k])
  {
    var f := Filled(docs, keys, entry);
    var m := map k | k in docs :: entry(k, docs[k]);
    FilledEntries(docs, keys, entry);
    assert f.Keys == m.Keys;
    forall k | k in f ensures f[k] == m[k] {
    }
  }

  /** The dict filled in the input's key order is the compacted store. */
  lemma CompactedStoreFilled(documents: DocStore, maxTotalChars: int, compacted: map<string, Document>)
    requires documents.Valid() && documents.order != []
    requires compacted == Filled(documents.docs, documents.order, EntryFor(PerDocBudget(|documents.order|, maxTotalChars)))
    ensures DocStore(documents.order, compacted) == CompactedStore(documents, maxTotalChars)
  {
    var budget := PerDocBudget(|documents.order|, maxTotalChars);
    FilledAll(documents.docs, documents.order, EntryFor(budget));
    assert compacted == map k | k in documents.docs :: CompactedEntry(k, documents.docs[k], budget);
  }

  /** One turn of the loop of `compact_documents`: store the compacted entry of `docId`. */
  method CompactEntry(docs: map<string, Document>, order: seq<string>, docId: string, charsPerDoc: int,
                      compacted: map<string, Document>) returns (next: map<string, Document>)
    requires (forall k :: k in order ==> k in docs) && docId in docs
    requires compacted == Filled(docs, order, EntryFor(charsPerDoc))
    ensures forall k :: k in order + [docId] ==> k in docs
    ensures next == Filled(docs, order + [docId], EntryFor(charsPerDoc))
  {
    var docData := docs[docId];
    var text := docData.text.GetOr("");
    var title := docData.title.GetOr(docId);
    var compactedText := CompactDocument(text, charsPerDoc);
    assert Document(docId, Some(title), Some(compactedText)) == EntryFor(charsPerDoc)(docId, docData);
    FilledSnoc(docs, order, docId, EntryFor(charsPerDoc));
    next := compacted[docId := Document(docId, Some(title), Some(compactedText))];
  }

  /** The loop of `compact_documents`: fill a fresh dict key by key, in the input's order. */
  method CompactDocuments(documents: DocStore, maxTotalChars: int) returns (r: DocStore)
    requires documents.Valid()
    ensures r == CompactedStore(documents, maxTotalChars)
  {
    if documents.order == [] {
      return EmptyStore;
    }
    var n := |documents.order|;
    var charsPerDoc := if MaxDocChars <= maxTotalChars / n then MaxDocChars else maxTotalChars / n;
    var order: seq<string> := [];
    var compacted: map<string, Document> := map[];
    for i := 0 to n
      invariant order == documents.order[..i]
      invariant compacted == Filled(documents.docs, order, EntryFor(charsPerDoc))
    {
      var docId := documents.order[i];
      assert documents.order[..i + 1] == order + [docId];
      compacted := CompactEntry(documents.docs, order, docId, charsPerDoc, compacted);
      order := order + [docId];
    }
    assert order == documents.order;
    CompactedStoreFilled(documents, maxTotalChars, compacted);
    r := DocStore(order, compacted);
  }

  // ---------------------------------------------------------------------------
  // compact_context

  const MaxListed := 50
  const MaxContexts := 20
  const ClipLimit := 400
  const ClipKeep := 200
  const Ellipsis := "..."

  /** A mention text over 400 characters keeps its first and last 200, joined by `...`. */
  function Clip(text: string): (r: string)
    ensures |text| <= ClipLimit ==> r == text
    ensures |text| > ClipLimit ==>
      |r| == 2 * ClipKeep + |Ellipsis| && r == text[..ClipKeep] + Ellipsis + text[|text| - ClipKeep..]
  {
    if |text| > ClipLimit then Take(text, ClipKeep) + Ellipsis + TakeLast(text, ClipKeep) else text
  }

  /** The record `compact_context` keeps for a mention: the same fields, the text clipped. */
  function ClippedContext(m: MentionContext): MentionContext {
    MentionContext(m.entity, m.docId, m.docTitle, Clip(m.context))
  }

  /** The entity names the records mention. */
  function EntitySet(ms: seq<MentionContext>): set<string> {
    set m | m in ms :: m.entity
  }

  lemma EntitySetSnoc(ms: seq<MentionContext>, m: MentionContext)
    ensures EntitySet(ms + [m]) == EntitySet(ms) + {m.entity}
  {
    assert m in ms + [m];
    forall x | x in EntitySet(ms) ensures x in EntitySet(ms + [m]) {
      var y :| y in ms && y.entity == x;
      assert y in ms + [m];
    }
  }

  /** `list(unique_contexts.values())` after the loop: the first record of each entity, in
      order of first appearance, clipped. */
  function UniqueContexts(cs: seq<MentionContext>): (r: seq<MentionContext>)
    ensures |r| <= |cs|
    ensures forall i, j :: 0 <= i < j < |r| ==> r[i].entity != r[j].entity
    ensures forall m :: m in r ==> exists c :: c in cs && m == ClippedContext(c)
    ensures EntitySet(r) == EntitySet(cs)
  {
    if cs == [] then []
    else
      var u := UniqueContexts(cs[..|cs| - 1]);
      var last := cs[|cs| - 1];
      assert cs == cs[..|cs| - 1] + [last];
      EntitySetSnoc(cs[..|cs| - 1], last);
      EntitySetSnoc(u, ClippedContext(last));
      if last.entity in EntitySet(u) then u else u + [ClippedContext(last)]
  }

  /** Position `j` holds the first record naming its entity. */
  predicate FirstMention(cs: seq<MentionContext>, j: int) {
    0 <= j < |cs| && forall i :: 0 <= i < j ==> cs[i].entity != cs[j].entity
  }

  /** The first record of every entity is the one kept. */
  lemma {:induction false} UniqueContextsFirstWins(cs: seq<MentionContext>, j: int)
    requires FirstMention(cs, j)
    ensures ClippedContext(cs[j]) in UniqueContexts(cs)
  {
    var n := |cs| - 1;
    if j < n {
      FirstMentionInit(cs, j);
      UniqueContextsFirstWins(cs[..n], j);
      UniqueContextsGrow(cs);
    } else {
      LastMentionKept(cs);
    }
  }

  /** A record kept for the records before the last is kept for all of them. */
  lemma UniqueContextsGrow(cs: seq<MentionContext>)
    requires cs != []
    ensures forall m :: m in UniqueContexts(cs[..|cs| - 1]) ==> m in UniqueContexts(cs)
  {
    var u := UniqueContexts(cs[..|cs| - 1]);
    var last := cs[|cs| - 1];
    assert UniqueContexts(cs) == if last.entity in EntitySet(u) then u else u + [ClippedContext(last)];
  }

  /** The last record, as a first mention, is kept. */
  lemma LastMentionKept(cs: seq<MentionContext>)
    requires FirstMention(cs, |cs| - 1)
    ensures ClippedContext(cs[|cs| - 1]) in UniqueContexts(cs)
  {
    var u := UniqueContexts(cs[..|cs| - 1]);
    var last := cs[|cs| - 1];
    LastMentionNew(cs);
    assert UniqueContexts(cs) == u + [ClippedContext(last)];
  }

  /** A first mention before the last record is a first mention of the records before it. */
  lemma FirstMentionInit(cs: seq<MentionContext>, j: int)
    requires FirstMention(cs, j) && j < |cs| - 1
    ensures FirstMention(cs[..|cs| - 1], j) && cs[..|cs| - 1][j] == cs[j]
  {
    var init := cs[..|cs| - 1];
    forall i | 0 <= i < j ensures init[i].entity != init[j].entity {
      assert init[i] == cs[i] && init[j] == cs[j];
    }
  }

  /** The last record, as a first mention, names an entity the records before it lack. */
  lemma LastMentionNew(cs: seq<MentionContext>)
    requires FirstMention(cs, |cs| - 1)
    ensures cs[|cs| - 1].entity !in EntitySet(UniqueContexts(cs[..|cs| - 1]))
  {
    var n := |cs| - 1;
    var init := cs[..n];
    var u := UniqueContexts(init);
    forall m | m in u ensures m.entity != cs[n].entity {
      var c :| c in init && m == ClippedContext(c);
      var i :| 0 <= i < n && init[i] == c;
      assert cs[i] == c;
    }
  }

  /** The loop that fills `unique_contexts`: the dict's key set is `seen`, its values in
      insertion order are `unique`. */
  method DeduplicateContexts(contexts: seq<MentionContext>) returns (unique: seq<MentionContext>)
    ensures unique == UniqueContexts(contexts)
  {
    unique := [];
    var seen: set<string> := {};
    for i := 0 to |contexts|
      invariant unique == UniqueContexts(contexts[..i])
      invariant seen == EntitySet(unique)
    {
      var ctx := contexts[i];
      assert contexts[..i + 1][..i] == contexts[..i];
      if ctx.entity !in seen {
        var contextText := ctx.context;
        if |contextText| > ClipLimit {
          contextText := Take(contextText, ClipKeep) + Ellipsis + TakeLast(contextText, ClipKeep);
        }
        assert EntitySet(unique + [ClippedContext(ctx)]) == seen + {ctx.entity};
        unique := unique + [MentionContext(ctx.entity, ctx.docId, ctx.docTitle, contextText)];
        seen := seen + {ctx.entity};
      }
    }
    assert contexts[..|contexts|] == contexts;
  }

  /** `sum(len(d.get('text', '')) for d in documents.values())` over the listed keys. */
  function TotalText(order: seq<string>, docs: map<string, Document>): (r: nat)
    requires forall k :: k in order ==> k in docs
  {
    if order == [] then 0
    else TotalText(order[..|order| - 1], docs) + |docs[order[|order| - 1]].text.GetOr("")|
  }

  /** `int(max_chars * 0.7)`: seven tenths, truncated toward zero. */
  function SevenTenths(maxChars: int): (r: int)
    ensures 0 <= maxChars ==> 0 <= r <= maxChars && 10 * r <= 7 * maxChars < 10 * (r + 1)
    ensures maxChars < 0 ==> maxChars <= r <= 0
  {
    if 0 <= maxChars then (7 * maxChars) / 10 else -((-7 * maxChars) / 10)
  }

  /** The documents `compact_context` keeps: none when there are none, the same ones when their
      texts add up to at most seven tenths of the budget, else each compacted under that share. */
  function KeptDocuments(c: ContextCompactor, documents: DocStore): (r: DocStore)
    requires documents.Valid()
    ensures r.Valid() && r.order == documents.order && r.docs.Keys == documents.docs.Keys
  {
    if documents.order == [] then EmptyStore
    else if 10 * TotalText(documents.order, documents.docs) > 7 * c.MaxChars() then
      CompactedStore(documents, SevenTenths(c.MaxChars()))
    else documents
  }

  /** `compact_context(graph_context)` */
  function CompactedContext(c: ContextCompactor, g: TraversalContext): TraversalContext
    requires g.documents.Valid()
  {
    TraversalContext(
      Take(g.entities, MaxListed), Take(g.relationships, MaxListed), KeptDocuments(c, g.documents),
      Take(UniqueContexts(g.contexts), MaxContexts))
  }

  /** The compacted context keeps at most 50 entities and 50 relationships, each a prefix of
      the input; at most 20 mention records, one per entity, none over 403 characters; and the
      same document keys, with each text within its share when they had to be compacted. */
  lemma CompactedContextBounds(c: ContextCompactor, g: TraversalContext)
    requires g.documents.Valid()
    ensures var r := CompactedContext(c, g);
      |r.entities| <= MaxListed && r.entities <= g.entities &&
      |r.relationships| <= MaxListed && r.relationships <= g.relationships &&
      |r.contexts| <= MaxContexts &&
      (forall i, j :: 0 <= i < j < |r.contexts| ==> r.contexts[i].entity != r.contexts[j].entity) &&
      (forall m :: m in r.contexts ==> |m.context| <= 2 * ClipKeep + |Ellipsis|) &&
      r.documents.Valid() && r.documents.order == g.documents.order
    ensures var r := CompactedContext(c, g);
      10 * TotalText(g.documents.order, g.documents.docs) <= 7 * c.MaxChars() ==> r.documents == g.documents
    ensures var r := CompactedContext(c, g);
      0 <= c.maxTokens && 7 * c.MaxChars() < 10 * TotalText(g.documents.order, g.documents.docs) ==>
        forall k :: k in r.documents.docs ==>
          r.documents.docs[k].text.Some? && |r.documents.docs[k].text.value| <= MaxDocChars &&
          |r.documents.docs[k].text.value| <= SevenTenths(c.MaxChars()) / g.documents.Size()
  {
    UniqueContextsClipped(g.contexts);
    if g.documents.order != [] {
      CompactedStoreBounds(g.documents, SevenTenths(c.MaxChars()));
    } else {
      NoKeysEmpty(g.documents);
    }
  }

  /** Every kept record has its text clipped. */
  lemma UniqueContextsClipped(cs: seq<MentionContext>)
    ensures forall m :: m in UniqueContexts(cs) ==> |m.context| <= 2 * ClipKeep + |Ellipsis|
  {
    forall m | m in UniqueContexts(cs) ensures |m.context| <= 2 * ClipKeep + |Ellipsis| {
      var ctx :| ctx in cs && m == ClippedContext(ctx);
    }
  }

  /** A valid store without listed keys is the empty dict. */
  lemma NoKeysEmpty(d: DocStore)
    requires d.Valid() && d.order == []
    ensures d.docs == map[]
  {
    forall k | k in d.docs ensures false {
    }
  }

  /** The loop part of `compact_context`, with the documents compacted by `compact_documents`. */
  method CompactContext(c: ContextCompactor, g: TraversalContext) returns (r: TraversalContext)
    requires g.documents.Valid()
    ensures r == CompactedContext(c, g)
  {
    var unique := DeduplicateContexts(g.contexts);
    var documents := EmptyStore;
    if g.documents.order != [] {
      var totalChars := TotalText(g.documents.order, g.documents.docs);
      if 10 * totalChars > 7 * c.MaxChars() {
        var maxDocChars := SevenTenths(c.MaxChars());
        documents := CompactDocuments(g.documents, maxDocChars);
      } else {
        documents := g.documents;
      }
    }
    r := TraversalContext(Take(g.entities, MaxListed), Take(g.relationships, MaxListed), documents,
                          Take(unique, MaxContexts));
  }

  // ---------------------------------------------------------------------------
  // build_compact_context_string: grouping by type

  /** The keys of `items` in order of first appearance: the key order of a dict filled with
      `if key not in d: d[key] = []` for each item. */
  function KeysInOrder<V>(items: seq<(string, V)>): seq<string> {
    if items == [] then []
    else
      var key := items[|items| - 1].0;
      var keys := KeysInOrder(items[..|items| - 1]);
      if key in keys then keys else keys + [key]
  }

  /** Each key is listed once, and exactly the keys the items carry are listed. */
  lemma {:induction false} KeysInOrderSpec<V>(items: seq<(string, V)>)
    ensures Distinct(KeysInOrder(items))
    ensures forall k :: k in KeysInOrder(items) <==> exists i :: 0 <= i < |items| && items[i].0 == k
  {
    if items != [] {
      var init := items[..|items| - 1];
      KeysInOrderSpec(init);
      assert forall i :: 0 <= i < |init| ==> init[i] == items[i];
    }
  }

  /** The values of the items with key `k`, in order: what `d[key].append(value)` collects. */
  function ValuesFor<V>(items: seq<(string, V)>, k: string): (r: seq<V>)
    ensures |r| <= |items|
  {
    if items == [] then []
    else
      var last := items[|items| - 1];
      ValuesFor(items[..|items| - 1], k) + (if last.0 == k then [last.1] else [])
  }

  /** Every item lands in the group of its key. */
  lemma {:induction false} GroupsHoldItems<V>(items: seq<(string, V)>)
    ensures forall i :: 0 <= i < |items| ==> items[i].1 in ValuesFor(items, items[i].0)
  {
    if items != [] {
      var init := items[..|items| - 1];
      GroupsHoldItems(init);
      forall i | 0 <= i < |init| ensures items[i].1 in ValuesFor(items, items[i].0) {
        assert init[i] == items[i];
      }
    }
  }

  /** The groups together hold exactly as many values as there are items. */
  lemma {:induction false} GroupsCount<V>(items: seq<(string, V)>)
    ensures GroupSizes(items, KeysInOrder(items)) == |items|
  {
    if items != [] {
      var init := items[..|items| - 1];
      var last := items[|items| - 1];
      assert items == init + [last];
      GroupsCount(init);
      KeysInOrderSpec(init);
      var keys := KeysInOrder(init);
      GroupSizesStep(init, last, keys);
      if last.0 !in keys {
        assert KeysInOrder(items) == keys + [last.0];
        GroupSizesSnoc(items, keys, last.0);
        GroupSizesAbsent(init, last.0);
        assert ValuesFor(items, last.0) == ValuesFor(init, last.0) + [last.1];
      }
    }
  }

  /** The number of values held by the groups of `keys`. */
  function GroupSizes<V>(items: seq<(string, V)>, keys: seq<string>): nat {
    if keys == [] then 0 else GroupSizes(items, keys[..|keys| - 1]) + |ValuesFor(items, keys[|keys| - 1])|
  }

  lemma {:induction false} GroupSizesSnoc<V>(items: seq<(string, V)>, keys: seq<string>, k: string)
    ensures GroupSizes(items, keys + [k]) == GroupSizes(items, keys) + |ValuesFor(items, k)|
  {
    assert (keys + [k])[..|keys|] == keys;
  }

  /** A key no item carries has an empty group. */
  lemma {:induction false} GroupSizesAbsent<V>(items: seq<(string, V)>, k: string)
    requires forall i :: 0 <= i < |items| ==> items[i].0 != k
    ensures ValuesFor(items, k) == []
  {
    if items != [] {
      GroupSizesAbsent(items[..|items| - 1], k);
    }
  }

  /** Adding an item grows the group of its key by one and leaves the others alone. */
  lemma {:induction false} GroupSizesStep<V>(init: seq<(string, V)>, last: (string, V), keys: seq<string>)
    requires Distinct(keys)
    ensures GroupSizes(init + [last], keys) == GroupSizes(init, keys) + (if last.0 in keys then 1 else 0)
  {
    var items := init + [last];
    assert items[..|items| - 1] == init;
    if keys != [] {
      var ks := keys[..|keys| - 1];
      assert Distinct(ks);
      GroupSizesStep(init, last, ks);
      assert last.0 in keys <==> last.0 in ks || last.0 == keys[|keys| - 1];
      assert last.0 in ks ==> last.0 != keys[|keys| - 1];
    }
  }

  /** The loop that fills a dict of lists: `if key not in d: d[key] = []`, then
      `d[key].append(value)`; the dict's keys in insertion order are `keys`. */
  method GroupByKey<V>(items: seq<(string, V)>) returns (keys: seq<string>, groups: map<string, seq<V>>)
    ensures keys == KeysInOrder(items)
    ensures forall k :: k in groups <==> k in keys
    ensures forall k :: k in groups ==> groups[k] == ValuesFor(items, k)
  {
    keys := [];
    groups := map[];
    for i := 0 to |items|
      invariant keys == KeysInOrder(items[..i])
      invariant forall k :: k in groups <==> k in keys
      invariant forall k :: k in groups ==> groups[k] == ValuesFor(items[..i], k)
    {
      var (key, value) := items[i];
      assert items[..i + 1][..i] == items[..i];
      if key !in groups {
        KeysInOrderSpec(items[..i]);
        GroupSizesAbsent(items[..i], key);
        keys := keys + [key];
        groups := groups[key := []];
      }
      groups := groups[key := groups[key] + [value]];
    }
    assert items[..|items|] == items;
  }

  // ---------------------------------------------------------------------------
  // build_compact_context_string: rendering

  const MaxNamesPerType := 10
  const MaxPairsPerType := 5
  const MaxDocsRendered := 10
  const EntitiesHeader := "ENTITÉS:\n"
  const RelationsHeader := "\nRELATIONS:\n"
  const DocumentsHeader := "\nDOCUMENTS:\n"
  const Truncated := "\n\n[Contexte tronqué]"

  /** `(entity.get('type', 'unknown'), entity.get('name'))` for each entity. */
  function EntityItems(es: seq<Entity>): (r: seq<(string, Option<string>)>)
    ensures |r| == |es|
  {
    seq(|es|, i requires 0 <= i < |es| => (es[i].etype.GetOr("unknown"), es[i].name))
  }

  /** No name is missing: `', '.join` raises on `None`. */
  predicate AllPresent(names: seq<Option<string>>) {
    forall i :: 0 <= i < |names| ==> names[i].Some?
  }

  function Present(names: seq<Option<string>>): (r: seq<string>)
    requires AllPresent(names)
    ensures |r| == |names|
  {
    seq(|names|, i requires 0 <= i < |names| => names[i].value)
  }

  /** The entities can be rendered: the first ten names of every type are present. */
  predicate NamesRenderable(es: seq<Entity>) {
    var items := EntityItems(es);
    TypesRenderable(items, KeysInOrder(items))
  }

  /** No name listed under any of the types `keys` is missing. */
  predicate TypesRenderable(items: seq<(string, Option<string>)>, keys: seq<string>) {
    forall k :: k in keys ==> AllPresent(Take(ValuesFor(items, k), MaxNamesPerType))
  }

  /** One entity-type line: the type, a colon and the first ten names separated by commas. */
  function NameLine(etype: string, names: seq<Option<string>>): string
    requires AllPresent(Take(names, MaxNamesPerType))
  {
    etype + ": " + Join(", ", Present(Take(names, MaxNamesPerType))) + "\n"
  }

  /** The lines of the entity block for the types `keys`, in order. */
  function NameLines(items: seq<(string, Option<string>)>, keys: seq<string>): string
    requires TypesRenderable(items, keys)
  {
    if keys == [] then ""
    else
      var last := keys[|keys| - 1];
      NameLines(items, keys[..|keys| - 1]) + NameLine(last, ValuesFor(items, last))
  }

  /** One more type adds its line to the entity block. */
  lemma NameLinesStep(items: seq<(string, Option<string>)>, keys: seq<string>, i: nat)
    requires i < |keys| && TypesRenderable(items, keys)
    ensures TypesRenderable(items, keys[..i]) && TypesRenderable(items, keys[..i + 1])
    ensures NameLines(items, keys[..i + 1]) == NameLines(items, keys[..i]) + NameLine(keys[i], ValuesFor(items, keys[i]))
  {
    assert keys[..i + 1][..i] == keys[..i];
  }

  /** The entity block: one line per type, types in order of first appearance. */
  function EntitiesText(es: seq<Entity>): string
    requires NamesRenderable(es)
  {
    var items := EntityItems(es);
    EntitiesHeader + NameLines(items, KeysInOrder(items))
  }

  /** `f"{x}"` of a field that may be missing. */
  function Show(x: Option<string>): string {
    x.GetOr("None")
  }

  /** Each relationship as its type (default `relates_to`) and its `subject → object` pair. */
  function RelationItems(rs: seq<Relationship>): (r: seq<(string, string)>)
    ensures |r| == |rs|
  {
    seq(|rs|, i requires 0 <= i < |rs| =>
      (rs[i].rtype.GetOr("relates_to"), Show(rs[i].subject) + " → " + Show(rs[i].obj)))
  }

  /** One relation-type line: the type, a colon and the first five pairs separated by semicolons. */
  function PairLine(rtype: string, pairs: seq<string>): string {
    rtype + ": " + Join("; ", Take(pairs, MaxPairsPerType)) + "\n"
  }

  /** The lines of the relation block for the types `keys`, in order. */
  function PairLines(items: seq<(string, string)>, keys: seq<string>): string {
    if keys == [] then ""
    else
      var last := keys[|keys| - 1];
      PairLines(items, keys[..|keys| - 1]) + PairLine(last, ValuesFor(items, last))
  }

  /** One more type adds its line to the relation block. */
  lemma PairLinesStep(items: seq<(string, string)>, keys: seq<string>, i: nat)
    requires i < |keys|
    ensures PairLines(items, keys[..i + 1]) == PairLines(items, keys[..i]) + PairLine(keys[i], ValuesFor(items, keys[i]))
  {
    assert keys[..i + 1][..i] == keys[..i];
  }

  /** The relation block: one line per type, types in order of first appearance. */
  function RelationsText(rs: seq<Relationship>): string {
    var items := RelationItems(rs);
    RelationsHeader + PairLines(items, KeysInOrder(items))
  }

  /** `f"\n[{title}]\n{text}\n"`, the title defaulting to the key. */
  function DocLine(key: string, d: Document): string {
    "\n[" + d.title.GetOr(key) + "]\n" + d.text.GetOr("") + "\n"
  }

  /** The entries of the document block for the keys `keys`, in order. */
  function DocLines(docs: map<string, Document>, keys: seq<string>): string
    requires forall k :: k in keys ==> k in docs
  {
    if keys == [] then ""
    else
      var last := keys[|keys| - 1];
      DocLines(docs, keys[..|keys| - 1]) + DocLine(last, docs[last])
  }

  /** One more key adds its entry to the document block. */
  lemma DocLinesStep(docs: map<string, Document>, keys: seq<string>, i: nat)
    requires i < |keys| && forall k :: k in keys ==> k in docs
    ensures forall k :: k in keys[..i + 1] ==> k in docs
    ensures DocLines(docs, keys[..i + 1]) == DocLines(docs, keys[..i]) + DocLine(keys[i], docs[keys[i]])
  {
    assert keys[..i + 1][..i] == keys[..i];
  }

  /** The document block: the first ten documents, in order. */
  function DocumentsText(documents: DocStore): string
    requires documents.Valid()
  {
    DocumentsHeader + DocLines(documents.docs, Take(documents.order, MaxDocsRendered))
  }

  /** The blocks for the non-empty parts of the context, in the order entities, relations,
      documents. */
  function Parts(g: TraversalContext): (r: seq<string>)
    requires NamesRenderable(g.entities) && g.documents.Valid()
    ensures |r| <= 3
    ensures r == [] <==> g.entities == [] && g.relationships == [] && g.documents.order == []
  {
    (if g.entities != [] then [EntitiesText(g.entities)] else []) +
    (if g.relationships != [] then [RelationsText(g.relationships)] else []) +
    (if g.documents.order != [] then [DocumentsText(g.documents)] else [])
  }

  /** `build_compact_context_string(compacted_context)` */
  function CompactContextString(c: ContextCompactor, g: TraversalContext): string
    requires NamesRenderable(g.entities) && g.documents.Valid()
  {
    var text := Join("\n", Parts(g));
    if |text| > c.MaxChars() then Take(text, c.MaxChars()) + Truncated else text
  }

  /** The rendered context fits the budget but for the marker: it is the joined blocks when
      they fit, and otherwise their first `max_chars` characters followed by the marker. */
  lemma CompactContextStringBound(c: ContextCompactor, g: TraversalContext)
    requires NamesRenderable(g.entities) && g.documents.Valid()
    requires 0 <= c.maxTokens
    ensures var text := Join("\n", Parts(g));
      var r := CompactContextString(c, g);
      |r| <= c.MaxChars() + |Truncated| &&
      (|text| <= c.MaxChars() ==> r == text) &&
      (c.MaxChars() < |text| ==> r == text[..c.MaxChars()] + Truncated)
  {
  }

  /** An empty context renders as the empty string. */
  lemma CompactContextStringEmpty(c: ContextCompactor, g: TraversalContext)
    requires g.entities == [] && g.relationships == [] && g.documents.order == [] && g.documents.Valid()
    requires 0 <= c.maxTokens
    ensures NamesRenderable(g.entities) && CompactContextString(c, g) == ""
  {
  }

  // ---------------------------------------------------------------------------
  // build_compact_context_string: what the rendered blocks hold

  /** The value of an item. */
  function Snd<V>(item: (string, V)): V {
    item.1
  }

  /** The group of key `k` is `[v for (key, v) in items if key == k]`: the values of exactly
      the items carrying `k`, in item order. */
  lemma {:induction false} ValuesForOrder<V>(items: seq<(string, V)>, k: string, keep: ((string, V)) -> bool)
    returns (idx: seq<int>)
    requires forall item :: keep(item) <==> item.0 == k
    ensures Comprehension(ValuesFor(items, k), items, keep, Snd, idx)
  {
    if items == [] {
      idx := [];
    } else {
      var n := |items| - 1;
      var last := items[n];
      var pre := ValuesForOrder(items[..n], k, keep);
      ComprehensionSnoc(ValuesFor(items[..n], k), items[..n], keep, Snd, pre, last);
      assert items[..n] + [last] == items;
      idx := pre + (if keep(last) then [n] else []);
    }
  }

  /** The lines for the first `m` types begin the lines for all of them. */
  lemma {:induction false} NameLinesPrefix(items: seq<(string, Option<string>)>, keys: seq<string>, m: nat)
    requires m <= |keys| && TypesRenderable(items, keys)
    ensures TypesRenderable(items, keys[..m])
    ensures NameLines(items, keys[..m]) <= NameLines(items, keys)
    decreases |keys|
  {
    if m == |keys| {
      assert keys[..m] == keys;
    } else {
      var init := keys[..|keys| - 1];
      assert init[..m] == keys[..m];
      NameLinesPrefix(items, init, m);
      var last := keys[|keys| - 1];
      assert NameLines(items, keys) == NameLines(items, init) + NameLine(last, ValuesFor(items, last));
    }
  }

  /** The line of the `i`-th type follows the lines of the types before it. */
  lemma NameLineAt(items: seq<(string, Option<string>)>, keys: seq<string>, i: nat)
    requires i < |keys| && TypesRenderable(items, keys)
    ensures TypesRenderable(items, keys[..i])
    ensures OccursAt(NameLine(keys[i], ValuesFor(items, keys[i])), NameLines(items, keys), |NameLines(items, keys[..i])|)
  {
    NameLinesStep(items, keys, i);
    NameLinesPrefix(items, keys, i + 1);
    OccursAfter(NameLines(items, keys[..i]), NameLine(keys[i], ValuesFor(items, keys[i])), NameLines(items, keys));
  }

  /** The entity block lists each type once, in order of first appearance (`KeysInOrderSpec`);
      the line of the `i`-th type follows the header and the lines of the types before it and
      names the first ten entities of that type, in entity order (`ValuesForOrder`). */
  lemma EntitiesTextLine(es: seq<Entity>, i: nat)
    requires NamesRenderable(es) && i < |KeysInOrder(EntityItems(es))|
    ensures var items := EntityItems(es);
      var keys := KeysInOrder(items);
      var names := Take(ValuesFor(items, keys[i]), MaxNamesPerType);
      && TypesRenderable(items, keys[..i])
      && |names| <= MaxNamesPerType
      && names == ValuesFor(items, keys[i])[..|names|]
      && OccursAt(NameLine(keys[i], ValuesFor(items, keys[i])), EntitiesText(es), |EntitiesHeader| + |NameLines(items, keys[..i])|)
  {
    var items := EntityItems(es);
    var keys := KeysInOrder(items);
    NameLineAt(items, keys, i);
    OccursShifted(EntitiesHeader, NameLine(keys[i], ValuesFor(items, keys[i])), NameLines(items, keys),
      |NameLines(items, keys[..i])|);
  }

  /** The lines for the first `m` relation types begin the lines for all of them. */
  lemma {:induction false} PairLinesPrefix(items: seq<(string, string)>, keys: seq<string>, m: nat)
    requires m <= |keys|
    ensures PairLines(items, keys[..m]) <= PairLines(items, keys)
    decreases |keys|
  {
    if m == |keys| {
      assert keys[..m] == keys;
    } else {
      var init := keys[..|keys| - 1];
      assert init[..m] == keys[..m];
      PairLinesPrefix(items, init, m);
    }
  }

  /** The relation block lists each type once, in order of first appearance; the line of the
      `i`-th type follows the header and the lines of the types before it and shows the first
      five pairs of that type, in relationship order. */
  lemma RelationsTextLine(rs: seq<Relationship>, i: nat)
    requires i < |KeysInOrder(RelationItems(rs))|
    ensures var items := RelationItems(rs);
      var keys := KeysInOrder(items);
      var pairs := Take(ValuesFor(items, keys[i]), MaxPairsPerType);
      && |pairs| <= MaxPairsPerType
      && pairs == ValuesFor(items, keys[i])[..|pairs|]
      && OccursAt(PairLine(keys[i], ValuesFor(items, keys[i])), RelationsText(rs), |RelationsHeader| + |PairLines(items, keys[..i])|)
  {
    var items := RelationItems(rs);
    var keys := KeysInOrder(items);
    var line := PairLine(keys[i], ValuesFor(items, keys[i]));
    var before := PairLines(items, keys[..i]);
    PairLinesStep(items, keys, i);
    PairLinesPrefix(items, keys, i + 1);
    OccursAfter(before, line, PairLines(items, keys));
    OccursShifted(RelationsHeader, line, PairLines(items, keys), |before|);
  }

  /** The entries for the first `m` keys begin the entries for all of them. */
  lemma {:induction false} DocLinesPrefix(docs: map<string, Document>, keys: seq<string>, m: nat)
    requires m <= |keys| && forall k :: k in keys ==> k in docs
    ensures forall k :: k in keys[..m] ==> k in docs
    ensures DocLines(docs, keys[..m]) <= DocLines(docs, keys)
    decreases |keys|
  {
    if m == |keys| {
      assert keys[..m] == keys;
    } else {
      var init := keys[..|keys| - 1];
      assert init[..m] == keys[..m];
      DocLinesPrefix(docs, init, m);
    }
  }

  /** The entry of the `i`-th key follows the entries of the keys before it. */
  lemma DocLineAt(docs: map<string, Document>, keys: seq<string>, i: nat)
    requires i < |keys| && forall k :: k in keys ==> k in docs
    ensures forall k :: k in keys[..i] ==> k in docs
    ensures OccursAt(DocLine(keys[i], docs[keys[i]]), DocLines(docs, keys), |DocLines(docs, keys[..i])|)
  {
    DocLinesStep(docs, keys, i);
    DocLinesPrefix(docs, keys, i + 1);
    OccursAfter(DocLines(docs, keys[..i]), DocLine(keys[i], docs[keys[i]]), DocLines(docs, keys));
  }

  /** The document block lists at most ten documents: the `i`-th stored document, for `i`
      below ten, follows the header and the entries of the documents stored before it. */
  lemma DocumentsTextEntry(documents: DocStore, i: nat)
    requires documents.Valid() && i < |documents.order| && i < MaxDocsRendered
    ensures |Take(documents.order, MaxDocsRendered)| <= MaxDocsRendered
    ensures var key := documents.order[i];
      && key in documents.docs
      && (forall k :: k in documents.order[..i] ==> k in documents.docs)
      && OccursAt(DocLine(key, documents.docs[key]), DocumentsText(documents),
                  |DocumentsHeader| + |DocLines(documents.docs, documents.order[..i])|)
  {
    var keys := Take(documents.order, MaxDocsRendered);
    assert keys[..i] == documents.order[..i] && keys[i] == documents.order[i];
    DocLineAt(documents.docs, keys, i);
    OccursShifted(DocumentsHeader, DocLine(keys[i], documents.docs[keys[i]]), DocLines(documents.docs, keys),
      |DocLines(documents.docs, keys[..i])|);
  }

  /** When the blocks fit the budget, the rendered context is the entity block first, then the
      relation block after a newline, and the document block last, each block present exactly
      when its part of the context is non-empty. */
  lemma CompactContextStringBlocks(c: ContextCompactor, g: TraversalContext)
    requires NamesRenderable(g.entities) && g.documents.Valid()
    requires 0 <= c.maxTokens && |Join("\n", Parts(g))| <= c.MaxChars()
    ensures var r := CompactContextString(c, g);
      && (g.entities != [] ==> OccursAt(EntitiesText(g.entities), r, 0))
      && (g.relationships != [] ==>
            OccursAt(RelationsText(g.relationships), r, if g.entities != [] then |EntitiesText(g.entities)| + 1 else 0))
      && (g.documents.order != [] ==> OccursAt(DocumentsText(g.documents), r, |r| - |DocumentsText(g.documents)|))
      && (g.entities == [] && g.relationships == [] && g.documents.order == [] ==> r == "")
  {
    JoinPresent(g.entities != [], EntitiesText(g.entities), g.relationships != [], RelationsText(g.relationships),
      g.documents.order != [], DocumentsText(g.documents));
  }

  /** `"\n".join` of the blocks `x`, `y`, `z` that are present (`p`, `q`, `t`): the first opens
      the string, the second follows it after the separator, the last closes the string. */
  lemma JoinPresent(p: bool, x: string, q: bool, y: string, t: bool, z: string)
    ensures var r := Join("\n", (if p then [x] else []) + (if q then [y] else []) + (if t then [z] else []));
      && (p ==> OccursAt(x, r, 0))
      && (q ==> OccursAt(y, r, if p then |x| + 1 else 0))
      && (t ==> OccursAt(z, r, |r| - |z|))
      && (!p && !q && !t ==> r == "")
  {
    if p && q && t {
      assert [x] + [y] + [z] == [x, y, z];
      JoinThree(x, y, z);
    } else if p && q {
      assert [x] + [y] + [] == [x, y];
      JoinTwo(x, y);
    } else if p && t {
      assert [x] + [] + [z] == [x, z];
      JoinTwo(x, z);
    } else if q && t {
      assert [] + [y] + [z] == [y, z];
      JoinTwo(y, z);
    } else if p {
      assert [x] + [] + [] == [x];
      OccursIn([], x, []);
    } else if q {
      assert [] + [y] + [] == [y];
      OccursIn([], y, []);
    } else if t {
      assert [] + [] + [z] == [z];
      OccursIn([], z, []);
    }
  }

  /** `"\n".join([a, b])` */
  lemma JoinTwo(a: string, b: string)
    ensures var r := Join("\n", [a, b]);
      OccursAt(a, r, 0) && OccursAt(b, r, |a| + 1) && |r| == |a| + 1 + |b|
  {
    assert [a, b][1..] == [b];
    OccursIn([], a, "\n" + b);
    OccursIn(a + "\n", b, []);
  }

  /** `"\n".join([a, b, c])` */
  lemma JoinThree(a: string, b: string, c: string)
    ensures var r := Join("\n", [a, b, c]);
      OccursAt(a, r, 0) && OccursAt(b, r, |a| + 1) && OccursAt(c, r, |a| + |b| + 2) && |r| == |a| + |b| + |c| + 2
  {
    assert [a, b, c][1..] == [b, c] && [b, c][1..] == [c];
    var tail := b + "\n" + c;
    assert Join("\n", [b, c]) == tail;
    var r := a + "\n" + tail;
    assert Join("\n", [a, b, c]) == r;
    OccursIn([], a, "\n" + tail);
    assert [] + a + ("\n" + tail) == r;
    OccursIn(a + "\n", b, "\n" + c);
    assert a + "\n" + b + "\n" + c == r;
    OccursIn(a + "\n" + b + "\n", c, []);
    assert a + "\n" + b + "\n" + c + [] == r;
  }

  /** The entity loops of `build_compact_context_string`: group the names by type, then one
      line per type. */
  method RenderEntities(es: seq<Entity>) returns (entitiesText: string)
    requires NamesRenderable(es)
    ensures entitiesText == EntitiesText(es)
  {
    var items := EntityItems(es);
    var types, entitiesByType := GroupByKey(items);
    entitiesText := EntitiesHeader;
    for i := 0 to |types|
      invariant TypesRenderable(items, types[..i])
      invariant entitiesText == EntitiesHeader + NameLines(items, types[..i])
    {
      var etype := types[i];
      NameLinesStep(items, types, i);
      var line := NameLine(etype, entitiesByType[etype]);
      AppendAssoc(EntitiesHeader, NameLines(items, types[..i]), line);
      entitiesText := entitiesText + line;
    }
    assert types[..|types|] == types;
  }

  /** The relation loops of `build_compact_context_string`: group the pairs by type, then one
      line per type. */
  method RenderRelations(rs: seq<Relationship>) returns (relsText: string)
    ensures relsText == RelationsText(rs)
  {
    var items := RelationItems(rs);
    var types, relsByType := GroupByKey(items);
    relsText := RelationsHeader;
    for i := 0 to |types|
      invariant relsText == RelationsHeader + PairLines(items, types[..i])
    {
      var rtype := types[i];
      PairLinesStep(items, types, i);
      var line := PairLine(rtype, relsByType[rtype]);
      AppendAssoc(RelationsHeader, PairLines(items, types[..i]), line);
      relsText := relsText + line;
    }
    assert types[..|types|] == types;
  }

  /** The document loop of `build_compact_context_string` over the first ten documents. */
  method RenderDocuments(documents: DocStore) returns (docsText: string)
    requires documents.Valid()
    ensures docsText == DocumentsText(documents)
  {
    docsText := DocumentsHeader;
    var firsts := Take(documents.order, MaxDocsRendered);
    for i := 0 to |firsts|
      invariant docsText == DocumentsHeader + DocLines(documents.docs, firsts[..i])
    {
      var docId := firsts[i];
      DocLinesStep(documents.docs, firsts, i);
      var line := DocLine(docId, documents.docs[docId]);
      AppendAssoc(DocumentsHeader, DocLines(documents.docs, firsts[..i]), line);
      docsText := docsText + line;
    }
    assert firsts[..|firsts|] == firsts;
  }

  /** `build_compact_context_string(compacted_context)`: collect the blocks, join them with
      newlines, truncate with a marker. */
  method BuildCompactContextString(c: ContextCompactor, g: TraversalContext) returns (s: string)
    requires NamesRenderable(g.entities) && g.documents.Valid()
    ensures s == CompactContextString(c, g)
  {
    var parts := CollectParts(g);
    s := Join("\n", parts);
    if |s| > c.MaxChars() {
      s := Take(s, c.MaxChars()) + Truncated;
    }
  }

  /** The blocks `build_compact_context_string` collects, in order. */
  method CollectParts(g: TraversalContext) returns (parts: seq<string>)
    requires NamesRenderable(g.entities) && g.documents.Valid()
    ensures parts == Parts(g)
  {
    parts := [];
    if g.entities != [] {
      var entitiesText := RenderEntities(g.entities);
      parts := parts + [entitiesText];
    }
    assert parts == if g.entities != [] then [EntitiesText(g.entities)] else [];
    if g.relationships != [] {
      var relsText := RenderRelations(g.relationships);
      parts := parts + [relsText];
    }
    assert parts == (if g.entities != [] then [EntitiesText(g.entities)] else []) +
      (if g.relationships != [] then [RelationsText(g.relationships)] else []);
    if g.documents.order != [] {
      var docsText := RenderDocuments(g.documents);
      parts := parts + [docsText];
    }
    assert parts == Parts(g);
  }
}
