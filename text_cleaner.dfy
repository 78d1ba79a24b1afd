/** `TextCleaner` (src/preprocessing/text_cleaner.py): the four regular-expression
    substitutions of `clean` (URLs, page-number lines, whitespace runs, newline runs) and
    `strip`, and the paragraph split. Each substitution is written out as the left-to-right
    scan `re.sub` performs, with the match its pattern finds at each position. */
module TextCleaning {
  import opened PyStr

  // ---------------------------------------------------------------------------
  // URLs: http[s]?://(?:[a-zA-Z]|[0-9]|[$-_@.&+]|[!*\\(\\),]|(?:%[0-9a-fA-F][0-9a-fA-F]))+

  /** A character the URL pattern repeats: a lower-case letter, anything from `$` to `_`
      (which takes in the digits, the capitals and `%`, so that the `%XX` branch adds
      nothing), or one of `! * \ ( ) ,`. */
  predicate IsUrlChar(c: char) {
    ('a' <= c <= 'z') || ('$' <= c <= '_') || c == '!' || c == '*' || c == '\\' || c == '(' || c == ')' || c == ','
  }

  /** The longest run of URL characters at the start of `s`. */
  function UrlRun(s: string): (n: nat)
    ensures n <= |s|
    ensures forall j :: 0 <= j < n ==> IsUrlChar(s[j])
    ensures n < |s| ==> !IsUrlChar(s[n])
  {
    if s != [] && IsUrlChar(s[0]) then 1 + UrlRun(s[1..]) else 0
  }

  /** The length of the scheme `https://` or `http://` that `s` starts with, else 0. */
  function UrlScheme(s: string): nat {
    if "https://" <= s then 8 else if "http://" <= s then 7 else 0
  }

  /** The length of the URL match at the start of `s`, 0 when there is none: the scheme and
      the longest non-empty run of URL characters after it. */
  function UrlMatch(s: string): (n: nat)
    ensures n <= |s|
    ensures n > 0 ==> forall j :: 0 <= j < n ==> IsUrlChar(s[j])
    ensures n > 0 ==> n < |s| ==> !IsUrlChar(s[n])
    ensures n > 0 ==> s[0] == 'h'
  {
    var p := UrlScheme(s);
    if p > 0 && UrlRun(s[p..]) > 0 then p + UrlRun(s[p..]) else 0
  }

  /** A URL starts at position `i` of `s`. */
  predicate UrlAt(s: string, i: int) {
    0 <= i <= |s| && UrlMatch(s[i..]) > 0
  }

  /** `re.sub(urls, '', s)` */
  function RemoveUrls(s: string): (r: string)
    ensures |r| <= |s|
    decreases |s|
  {
    if s == [] then []
    else
      var m := UrlMatch(s);
      if m > 0 then RemoveUrls(s[m..]) else [s[0]] + RemoveUrls(s[1..])
  }

  /** The first `k` characters of `s` are URL characters. */
  predicate UrlCharsUpTo(s: string, k: nat) {
    k <= |s| && forall j :: 0 <= j < k ==> IsUrlChar(s[j])
  }

  /** A run of URL characters at the start of the result was there, untouched, in `s`: a
      removal is always followed by a character that is not a URL character. */
  lemma {:induction false} RemoveUrlsKeepsRun(s: string, k: nat)
    requires UrlCharsUpTo(RemoveUrls(s), k)
    ensures k <= |s| && RemoveUrls(s)[..k] == s[..k]
    decreases |s|
  {
    if s != [] && k > 0 {
      var m := UrlMatch(s);
      if m > 0 {
        RemovedUrlFollower(s, m);
      } else {
        assert RemoveUrls(s) == [s[0]] + RemoveUrls(s[1..]);
        KeptHeadStep(s, RemoveUrls(s[1..]), k);
        RemoveUrlsKeepsRun(s[1..], k - 1);
      }
    }
  }

  /** One kept character: a run in `[s[0]] + t` carries over to `t`, and agreement of `t` with
      the rest of `s` extends to the whole prefix. */
  lemma KeptHeadStep(s: string, t: string, k: nat)
    requires s != [] && 0 < k <= |s|
    requires UrlCharsUpTo([s[0]] + t, k)
    ensures UrlCharsUpTo(t, k - 1)
    ensures t[..k - 1] == s[1..][..k - 1] ==> ([s[0]] + t)[..k] == s[..k]
  {
    forall j | 0 <= j < k - 1 ensures IsUrlChar(t[j]) {
      assert t[j] == ([s[0]] + t)[j + 1];
    }
    if t[..k - 1] == s[1..][..k - 1] {
      ConsPrefix(s, t, k);
    }
  }

  /** Putting the same head on two sequences that agree on `k - 1` characters. */
  lemma ConsPrefix(s: string, t: string, k: nat)
    requires 0 < k <= |s| && k - 1 <= |t| && t[..k - 1] == s[1..][..k - 1]
    ensures ([s[0]] + t)[..k] == s[..k]
  {
    forall j | 0 <= j < k ensures ([s[0]] + t)[j] == s[j] {
      if j > 0 {
        assert t[..k - 1][j - 1] == s[1..][..k - 1][j - 1];
      }
    }
  }

  /** What follows a removed URL starts with a character that is not a URL character. */
  lemma RemovedUrlFollower(s: string, m: nat)
    requires s != [] && m == UrlMatch(s) && m > 0
    ensures RemoveUrls(s) == [] || !IsUrlChar(RemoveUrls(s)[0])
  {
    var t := s[m..];
    assert RemoveUrls(s) == RemoveUrls(t);
    if t != [] {
      assert t[0] == s[m];
      assert !IsUrlChar(t[0]);
      assert UrlMatch(t) == 0;
      assert RemoveUrls(t) == [t[0]] + RemoveUrls(t[1..]);
    }
  }

  /** A result with a character kept from the head of `s` holds no URL at its start. */
  lemma NoUrlAtKeptHead(s: string)
    requires s != [] && UrlMatch(s) == 0
    ensures !UrlAt(RemoveUrls(s), 0)
  {
    var r := RemoveUrls(s);
    assert r[0..] == r;
    if UrlMatch(r) > 0 {
      var n := UrlMatch(r);
      assert UrlCharsUpTo(r, n);
      RemoveUrlsKeepsRun(s, n);
      UrlMatchPrefix(r, s, n);
    }
  }

  /** No URL is left anywhere in the result. */
  lemma {:induction false} NoUrlLeft(s: string)
    ensures forall i :: !UrlAt(RemoveUrls(s), i)
    decreases |s|
  {
    if s != [] {
      var m := UrlMatch(s);
      if m > 0 {
        NoUrlLeft(s[m..]);
      } else {
        var r := RemoveUrls(s);
        var r' := RemoveUrls(s[1..]);
        assert r == [s[0]] + r';
        NoUrlLeft(s[1..]);
        NoUrlAtKeptHead(s);
        forall i | 0 < i <= |r| ensures !UrlAt(r, i) {
          assert r[i..] == r'[i - 1..];
          assert !UrlAt(r', i - 1);
        }
      }
    }
  }

  /** The URL match at the start of a string depends only on the characters it covers. */
  lemma UrlMatchPrefix(r: string, s: string, n: nat)
    requires n == UrlMatch(r) && n > 0
    requires n <= |s| && r[..n] == s[..n]
    ensures UrlMatch(s) > 0
  {
    var p := UrlScheme(r);
    if p == 8 {
      assert s[..8] == r[..8];
    } else {
      assert s[..7] == r[..7];
      assert s[4] == r[4];
    }
    assert UrlScheme(s) == p;
    assert r[p] == s[p];
  }

  /** A text is left as it is exactly when it holds no URL. */
  lemma RemoveUrlsUnchanged(s: string)
    ensures RemoveUrls(s) == s <==> forall i :: !UrlAt(s, i)
  {
    NoUrlLeft(s);
    if forall i :: !UrlAt(s, i) {
      NoUrlKept(s);
    }
  }

  lemma {:induction false} NoUrlKept(s: string)
    requires forall i :: !UrlAt(s, i)
    ensures RemoveUrls(s) == s
    decreases |s|
  {
    if s != [] {
      NoUrlInTail(s);
      NoUrlKept(s[1..]);
      KeptWhole(s);
    }
  }

  /** Without a URL anywhere, none starts at the head and none in the rest. */
  lemma NoUrlInTail(s: string)
    requires s != [] && forall i :: !UrlAt(s, i)
    ensures UrlMatch(s) == 0 && forall i :: !UrlAt(s[1..], i)
  {
    assert s[0..] == s;
    assert !UrlAt(s, 0);
    forall i ensures !UrlAt(s[1..], i) {
      if 0 <= i <= |s| - 1 {
        assert s[1..][i..] == s[i + 1..];
        assert !UrlAt(s, i + 1);
      }
    }
  }

  /** A kept head in front of a rest left as it is leaves the whole as it is. */
  lemma KeptWhole(s: string)
    requires s != [] && UrlMatch(s) == 0 && RemoveUrls(s[1..]) == s[1..]
    ensures RemoveUrls(s) == s
  {
    assert s == [s[0]] + s[1..];
  }

  // ---------------------------------------------------------------------------
  // Page numbers: ^\d+\s*$ with re.MULTILINE

  /** `^` in multi-line mode: the start of the text or of a line. */
  predicate LineStart(text: string, i: int) {
    i == 0 || (0 < i <= |text| && text[i - 1] == '\n')
  }

  /** The longest run of digits from position `i`. */
  function DigitRun(text: string, i: nat): (n: nat)
    requires i <= |text|
    ensures i + n <= |text|
    ensures forall j :: i <= j < i + n ==> IsDigit(text[j])
    ensures i + n < |text| ==> !IsDigit(text[i + n])
    decreases |text| - i
  {
    if i < |text| && IsDigit(text[i]) then 1 + DigitRun(text, i + 1) else 0
  }

  /** The longest run of whitespace from position `i`. */
  function SpaceRun(text: string, i: nat): (n: nat)
    requires i <= |text|
    ensures i + n <= |text|
    ensures forall j :: i <= j < i + n ==> IsSpace(text[j])
    ensures i + n < |text| ==> !IsSpace(text[i + n])
    decreases |text| - i
  {
    if i < |text| && IsSpace(text[i]) then 1 + SpaceRun(text, i + 1) else 0
  }

  /** `$` in multi-line mode: the end of the text or just before a line feed. */
  predicate LineEnd(text: string, i: int) {
    i == |text| || (0 <= i < |text| && text[i] == '\n')
  }

  /** How much of the whitespace run of length `w` at `j` the greedy `\s*` keeps once it has
      backed off to a line end: the largest `k <= w` with a line end at `j + k`, or -1. */
  function LineEndWithin(text: string, j: nat, w: nat): (k: int)
    requires j + w <= |text|
    ensures -1 <= k <= w
    ensures k >= 0 ==> LineEnd(text, j + k)
    ensures forall p :: j + k < p <= j + w ==> !LineEnd(text, p)
  {
    if LineEnd(text, j + w) then w else if w == 0 then -1 else LineEndWithin(text, j, w - 1)
  }

  /** The length of the page-number match at `i`, 0 when there is none: at a line start,
      digits, then whitespace up to a line end. */
  function PageNumberAt(text: string, i: nat): (m: nat)
    requires i <= |text|
    ensures i + m <= |text|
    ensures m > 0 ==> LineStart(text, i) && IsDigit(text[i]) && LineEnd(text, i + m)
  {
    if !LineStart(text, i) then 0
    else
      var d := DigitRun(text, i);
      if d == 0 then 0
      else
        var k := LineEndWithin(text, i + d, SpaceRun(text, i + d));
        if k < 0 then 0 else d + k
  }

  /** A page-number match holds digits and whitespace only. */
  lemma PageNumberChars(text: string, i: nat)
    requires i <= |text|
    ensures forall j :: i <= j < i + PageNumberAt(text, i) ==> IsDigit(text[j]) || IsSpace(text[j])
  {
  }

  /** `re.sub(page_numbers, '', text[i:])`, line starts judged on the whole text. */
  function RemovePageNumbersFrom(text: string, i: nat): (r: string)
    requires i <= |text|
    ensures |r| <= |text| - i
    decreases |text| - i
  {
    if i == |text| then []
    else
      var m := PageNumberAt(text, i);
      if m > 0 then RemovePageNumbersFrom(text, i + m) else [text[i]] + RemovePageNumbersFrom(text, i + 1)
  }

  /** `re.sub(page_numbers, '', text)` */
  function RemovePageNumbers(text: string): string {
    RemovePageNumbersFrom(text, 0)
  }

  /** The characters of `s` that are neither digits nor whitespace, in order. */
  function Words(s: string): (r: string)
    ensures |r| <= |s|
  {
    if s == [] then [] else (if IsDigit(s[0]) || IsSpace(s[0]) then [] else [s[0]]) + Words(s[1..])
  }

  /** Skipping digits and whitespace skips nothing of `Words`. */
  lemma {:induction false} WordsSkip(text: string, i: nat, n: nat)
    requires i + n <= |text|
    requires forall j :: i <= j < i + n ==> IsDigit(text[j]) || IsSpace(text[j])
    ensures Words(text[i..]) == Words(text[i + n..])
    decreases n
  {
    if n > 0 {
      assert text[i..][1..] == text[i + 1..];
      WordsSkip(text, i + 1, n - 1);
    }
  }

  /** Only digits and whitespace are removed. */
  lemma {:induction false} RemovePageNumbersKeepsWords(text: string, i: nat)
    requires i <= |text|
    ensures Words(RemovePageNumbersFrom(text, i)) == Words(text[i..])
    decreases |text| - i
  {
    if i < |text| {
      RemovePageNumbersKeepsWords(text, PageNumberNext(text, i));
      PageNumberStep(text, i);
    }
  }

  /** Where the scan of `re.sub` goes on after position `i`: past the match, or past the
      one character it keeps. */
  function PageNumberNext(text: string, i: nat): (j: nat)
    requires i < |text|
    ensures i < j <= |text|
  {
    var m := PageNumberAt(text, i);
    if m > 0 then i + m else i + 1
  }

  /** One step of the scan takes nothing of `Words` with it but what it keeps. */
  lemma PageNumberStep(text: string, i: nat)
    requires i < |text|
    requires Words(RemovePageNumbersFrom(text, PageNumberNext(text, i))) == Words(text[PageNumberNext(text, i)..])
    ensures Words(RemovePageNumbersFrom(text, i)) == Words(text[i..])
  {
    if PageNumberAt(text, i) > 0 {
      PageNumberSkipped(text, i);
    } else {
      PageNumberKept(text, i);
    }
  }

  /** A removed page number takes nothing of `Words` with it. */
  lemma PageNumberSkipped(text: string, i: nat)
    requires i < |text| && PageNumberAt(text, i) > 0
    requires Words(RemovePageNumbersFrom(text, i + PageNumberAt(text, i))) == Words(text[i + PageNumberAt(text, i)..])
    ensures Words(RemovePageNumbersFrom(text, i)) == Words(text[i..])
  {
    var m := PageNumberAt(text, i);
    RemovePageNumbersSkip(text, i);
    PageNumberChars(text, i);
    WordsSkipSame(text, i, m, RemovePageNumbersFrom(text, i), RemovePageNumbersFrom(text, i + m));
  }

  /** A match is dropped: the scan goes on after it. */
  lemma RemovePageNumbersSkip(text: string, i: nat)
    requires i < |text| && PageNumberAt(text, i) > 0
    ensures RemovePageNumbersFrom(text, i) == RemovePageNumbersFrom(text, i + PageNumberAt(text, i))
  {
  }

  /** `WordsSkip`, for two texts known to be equal. */
  lemma WordsSkipSame(text: string, i: nat, m: nat, a: string, b: string)
    requires i + m <= |text|
    requires forall j :: i <= j < i + m ==> IsDigit(text[j]) || IsSpace(text[j])
    requires a == b && Words(b) == Words(text[i + m..])
    ensures Words(a) == Words(text[i..])
  {
    WordsSkip(text, i, m);
  }

  /** A kept character is kept by `Words` on both sides alike. */
  lemma PageNumberKept(text: string, i: nat)
    requires i < |text| && PageNumberAt(text, i) == 0
    requires Words(RemovePageNumbersFrom(text, i + 1)) == Words(text[i + 1..])
    ensures Words(RemovePageNumbersFrom(text, i)) == Words(text[i..])
  {
    WordsCons(text[i], RemovePageNumbersFrom(text, i + 1));
    WordsCons(text[i], text[i + 1..]);
    assert text[i..] == [text[i]] + text[i + 1..];
  }

  /** `Words` of a sequence with a head. */
  lemma WordsCons(c: char, rest: string)
    ensures Words([c] + rest) == (if IsDigit(c) || IsSpace(c) then [] else [c]) + Words(rest)
  {
    assert ([c] + rest)[1..] == rest;
  }

  /** A text without digits is left as it is. */
  lemma {:induction false} RemovePageNumbersNoDigits(text: string, i: nat)
    requires i <= |text|
    requires forall j :: i <= j < |text| ==> !IsDigit(text[j])
    ensures RemovePageNumbersFrom(text, i) == text[i..]
    decreases |text| - i
  {
    if i < |text| {
      assert PageNumberAt(text, i) == 0;
      RemovePageNumbersNoDigits(text, i + 1);
      assert text[i..] == [text[i]] + text[i + 1..];
    }
  }

  // ---------------------------------------------------------------------------
  // Whitespace: \s+ -> ' '

  /** `re.sub(r'\s+', ' ', text[i:])` */
  function CollapseSpacesFrom(text: string, i: nat): (r: string)
    requires i <= |text|
    ensures |r| <= |text| - i
    ensures r != [] && i < |text| && !IsSpace(text[i]) ==> r[0] == text[i]
    ensures r == [] <==> i == |text|
    decreases |text| - i
  {
    if i == |text| then []
    else if IsSpace(text[i]) then [' '] + CollapseSpacesFrom(text, i + SpaceRun(text, i))
    else [text[i]] + CollapseSpacesFrom(text, i + 1)
  }

  /** `re.sub(r'\s+', ' ', text)` */
  function CollapseSpaces(text: string): string {
    CollapseSpacesFrom(text, 0)
  }

  /** The only whitespace is single spaces: no other whitespace character and no two spaces
      in a row. */
  predicate SingleSpaced(s: string) {
    (forall j :: 0 <= j < |s| && IsSpace(s[j]) ==> s[j] == ' ') &&
    (forall j :: 0 <= j < |s| - 1 ==> !(s[j] == ' ' && s[j + 1] == ' '))
  }

  /** The characters of `s` that are not whitespace, in order. */
  function NonSpace(s: string): (r: string) {
    if s == [] then [] else (if IsSpace(s[0]) then [] else [s[0]]) + NonSpace(s[1..])
  }

  /** Skipping whitespace skips nothing of `NonSpace`. */
  lemma {:induction false} NonSpaceSkip(text: string, i: nat, n: nat)
    requires i + n <= |text|
    requires forall j :: i <= j < i + n ==> IsSpace(text[j])
    ensures NonSpace(text[i..]) == NonSpace(text[i + n..])
    decreases n
  {
    if n > 0 {
      assert text[i..][1..] == text[i + 1..];
      NonSpaceSkip(text, i + 1, n - 1);
    }
  }

  /** Collapsing leaves single spaces only. */
  lemma {:induction false} CollapseSpacesSingle(text: string, i: nat)
    requires i <= |text|
    ensures SingleSpaced(CollapseSpacesFrom(text, i))
    decreases |text| - i
  {
    if i < |text| {
      if IsSpace(text[i]) {
        var rest := CollapseSpacesFrom(text, i + SpaceRun(text, i));
        CollapseSpacesSingle(text, i + SpaceRun(text, i));
        SingleSpacedCons(' ', rest);
      } else {
        CollapseSpacesSingle(text, i + 1);
        SingleSpacedCons(text[i], CollapseSpacesFrom(text, i + 1));
      }
    }
  }

  /** Collapsing keeps every character that is not whitespace, in order. */
  lemma {:induction false} CollapseSpacesKeeps(text: string, i: nat)
    requires i <= |text|
    ensures NonSpace(CollapseSpacesFrom(text, i)) == NonSpace(text[i..])
    decreases |text| - i
  {
    if i < |text| {
      if IsSpace(text[i]) {
        CollapseSpacesKeeps(text, i + SpaceRun(text, i));
        SpaceRunCollapsed(text, i);
      } else {
        CollapseSpacesKeeps(text, i + 1);
        NonSpaceCons(text[i], CollapseSpacesFrom(text, i + 1));
        NonSpaceCons(text[i], text[i + 1..]);
        assert text[i..] == [text[i]] + text[i + 1..];
      }
    }
  }

  /** Character by character: a whitespace character becomes `' '` when it opens a run
      (`inRun` is false) and disappears inside one; any other character is kept. */
  function SqueezeFrom(text: string, i: nat, inRun: bool): string
    requires i <= |text|
    decreases |text| - i
  {
    if i == |text| then []
    else if IsSpace(text[i]) then (if inRun then [] else [' ']) + SqueezeFrom(text, i + 1, true)
    else [text[i]] + SqueezeFrom(text, i + 1, false)
  }

  /** Inside a run, the rest of the run disappears. */
  lemma {:induction false} SqueezeSkipsRun(text: string, i: nat, n: nat)
    requires i + n <= |text|
    requires forall j :: i <= j < i + n ==> IsSpace(text[j])
    ensures SqueezeFrom(text, i, true) == SqueezeFrom(text, i + n, true)
    decreases n
  {
    if n > 0 {
      SqueezeSkipsRun(text, i + 1, n - 1);
    }
  }

  /** After a run comes the end of the text or a character that is not whitespace, where
      being inside a run makes no difference. */
  lemma SqueezeAfterRun(text: string, j: nat)
    requires j <= |text| && (j < |text| ==> !IsSpace(text[j]))
    ensures SqueezeFrom(text, j, true) == SqueezeFrom(text, j, false)
  {
  }

  /** Collapsing replaces each maximal whitespace run by exactly one `' '` and keeps every
      other character: it agrees with the character-by-character definition. */
  lemma {:induction false} CollapseSpacesSqueeze(text: string, i: nat)
    requires i <= |text|
    ensures CollapseSpacesFrom(text, i) == SqueezeFrom(text, i, false)
    decreases |text| - i
  {
    if i < |text| {
      if IsSpace(text[i]) {
        var n := SpaceRun(text, i);
        CollapseSpacesSqueeze(text, i + n);
        SqueezeSkipsRun(text, i + 1, n - 1);
        SqueezeAfterRun(text, i + n);
      } else {
        CollapseSpacesSqueeze(text, i + 1);
      }
    }
  }

  /** A whitespace run collapsed to one space takes nothing of `NonSpace` with it. */
  lemma SpaceRunCollapsed(text: string, i: nat)
    requires i < |text| && IsSpace(text[i])
    requires NonSpace(CollapseSpacesFrom(text, i + SpaceRun(text, i))) == NonSpace(text[i + SpaceRun(text, i)..])
    ensures NonSpace(CollapseSpacesFrom(text, i)) == NonSpace(text[i..])
  {
    var n := SpaceRun(text, i);
    NonSpaceSkip(text, i, n);
    NonSpaceCons(' ', CollapseSpacesFrom(text, i + n));
  }

  /** `NonSpace` of a sequence with a head. */
  lemma NonSpaceCons(c: char, rest: string)
    ensures NonSpace([c] + rest) == (if IsSpace(c) then [] else [c]) + NonSpace(rest)
  {
    assert ([c] + rest)[1..] == rest;
  }

  lemma SingleSpacedCons(c: char, rest: string)
    requires SingleSpaced(rest)
    requires IsSpace(c) ==> c == ' '
    requires c == ' ' ==> rest == [] || !IsSpace(rest[0])
    ensures SingleSpaced([c] + rest)
  {
    var s := [c] + rest;
    forall j | 1 <= j < |s| ensures s[j] == rest[j - 1] {
    }
  }

  // ---------------------------------------------------------------------------
  // Newlines: \n{3,} -> '\n\n'

  /** The longest run of line feeds from position `i`. */
  function NewlineRun(text: string, i: nat): (n: nat)
    requires i <= |text|
    ensures i + n <= |text|
    decreases |text| - i
  {
    if i < |text| && text[i] == '\n' then 1 + NewlineRun(text, i + 1) else 0
  }

  /** `re.sub(r'\n{3,}', '\n\n', text[i:])` */
  function CollapseNewlinesFrom(text: string, i: nat): string
    requires i <= |text|
    decreases |text| - i
  {
    if i == |text| then []
    else
      var n := NewlineRun(text, i);
      if n >= 3 then "\n\n" + CollapseNewlinesFrom(text, i + n)
      else [text[i]] + CollapseNewlinesFrom(text, i + 1)
  }

  /** `re.sub(r'\n{3,}', '\n\n', text)` */
  function CollapseNewlines(text: string): string {
    CollapseNewlinesFrom(text, 0)
  }

  /** A text without line feeds is left as it is. */
  lemma {:induction false} CollapseNewlinesNone(text: string, i: nat)
    requires i <= |text|
    requires forall j :: i <= j < |text| ==> text[j] != '\n'
    ensures CollapseNewlinesFrom(text, i) == text[i..]
    decreases |text| - i
  {
    if i < |text| {
      CollapseNewlinesNone(text, i + 1);
      assert text[i..] == [text[i]] + text[i + 1..];
    }
  }

  // ---------------------------------------------------------------------------
  // clean and split_into_paragraphs

  /** `clean(text)` */
  function Clean(text: string): string {
    Strip(CollapseNewlines(CollapseSpaces(RemovePageNumbers(RemoveUrls(text)))))
  }

  /** After the whitespace rule the text is single-spaced, so the line-feed rule leaves it
      as it is. */
  lemma CollapsedUntouched(p: string)
    ensures SingleSpaced(CollapseSpaces(p))
    ensures NonSpace(CollapseSpaces(p)) == NonSpace(p)
    ensures CollapseNewlines(CollapseSpaces(p)) == CollapseSpaces(p)
  {
    var c := CollapseSpaces(p);
    CollapseSpacesSingle(p, 0);
    CollapseSpacesKeeps(p, 0);
    assert p[0..] == p;
    assert forall j :: 0 <= j < |c| ==> c[j] != '\n';
    CollapseNewlinesNone(c, 0);
    assert c[0..] == c;
  }

  /** A piece of a single-spaced text is single-spaced. */
  lemma SingleSpacedSlice(c: string, lo: nat, hi: nat)
    requires lo <= hi <= |c| && SingleSpaced(c)
    ensures SingleSpaced(c[lo..hi])
  {
    var r := c[lo..hi];
    forall j | 0 <= j < |r| ensures r[j] == c[lo + j] {
    }
  }

  /** The cleaned text has no whitespace but single inner spaces (no line feed in particular,
      so the line-feed rule never applies), and keeps every other character that survives the
      URL and page-number removals, in order. */
  lemma CleanSpec(text: string)
    ensures var r := Clean(text);
      SingleSpaced(r) && (r == [] || (r[0] != ' ' && r[|r| - 1] != ' '))
    ensures NonSpace(Clean(text)) == NonSpace(RemovePageNumbers(RemoveUrls(text)))
  {
    var p := RemovePageNumbers(RemoveUrls(text));
    CollapsedUntouched(p);
    StripSingleSpaced(CollapseSpaces(p));
  }

  /** Stripping a single-spaced text leaves it single-spaced, without a space at either end,
      and takes only whitespace away. */
  lemma StripSingleSpaced(c: string)
    requires SingleSpaced(c)
    ensures var r := Strip(c);
      SingleSpaced(r) && (r == [] || (r[0] != ' ' && r[|r| - 1] != ' '))
    ensures NonSpace(Strip(c)) == NonSpace(c)
  {
    var off := |c| - |LStrip(c)|;
    SingleSpacedSlice(c, off, off + |Strip(c)|);
    StripNonSpace(c);
  }

  /** A single-spaced text holds no line feed. */
  lemma SingleSpacedNoNewline(s: string)
    requires SingleSpaced(s)
    ensures '\n' !in s
  {
    if '\n' in s {
      var j :| 0 <= j < |s| && s[j] == '\n';
      assert IsSpace(s[j]);
    }
  }

  /** Stripping removes whitespace only. */
  lemma StripNonSpace(s: string)
    ensures NonSpace(Strip(s)) == NonSpace(s)
  {
    var l := LStrip(s);
    var off := |s| - |l|;
    NonSpaceSkip(s, 0, off);
    assert s[0..] == s;
    var r := RStrip(l);
    NonSpaceSuffix(l, |r|);
    assert l[..|r|] == r;
  }

  /** Dropping trailing whitespace removes nothing of `NonSpace`. */
  lemma {:induction false} NonSpaceSuffix(s: string, k: nat)
    requires k <= |s|
    requires forall j :: k <= j < |s| ==> IsSpace(s[j])
    ensures NonSpace(s[..k]) == NonSpace(s)
    decreases k
  {
    if k == 0 {
      NonSpaceSkip(s, 0, |s|);
      assert s[0..] == s;
    } else {
      NonSpaceSuffix(s[1..], k - 1);
      assert s[1..][..k - 1] == s[..k][1..];
    }
  }

  /** The strip of `p` is not empty: `if p.strip()`. */
  predicate NonBlank(p: string) {
    Strip(p) != []
  }

  /** The stripped pieces that are not empty, in order. */
  function StrippedNonEmpty(pieces: seq<string>): (r: seq<string>)
    ensures |r| <= |pieces|
  {
    if pieces == [] then []
    else
      var last := pieces[|pieces| - 1];
      StrippedNonEmpty(pieces[..|pieces| - 1]) + (if NonBlank(last) then [Strip(last)] else [])
  }

  /** `split_into_paragraphs(text)` */
  function SplitIntoParagraphs(text: string): seq<string> {
    StrippedNonEmpty(Split(text, "\n\n"))
  }

  /** The kept pieces are `[p.strip() for p in pieces if p.strip()]`: every piece with a
      non-empty strip contributes its strip, and no other piece does, in the order of the
      pieces. */
  lemma {:induction false} StrippedNonEmptyComprehension(pieces: seq<string>) returns (idx: seq<int>)
    ensures Comprehension(StrippedNonEmpty(pieces), pieces, NonBlank, Strip, idx)
  {
    if pieces == [] {
      idx := [];
    } else {
      var init := pieces[..|pieces| - 1];
      var last := pieces[|pieces| - 1];
      var front := StrippedNonEmptyComprehension(init);
      ComprehensionSnoc(StrippedNonEmpty(init), init, NonBlank, Strip, front, last);
      assert init + [last] == pieces;
      idx := front + (if NonBlank(last) then [|init|] else []);
    }
  }

  /** The paragraphs are the non-empty strips of the `"\n\n"` pieces of the text, each
      non-empty piece contributing once, in order. */
  lemma SplitIntoParagraphsComplete(text: string) returns (idx: seq<int>)
    ensures Comprehension(SplitIntoParagraphs(text), Split(text, "\n\n"), NonBlank, Strip, idx)
  {
    idx := StrippedNonEmptyComprehension(Split(text, "\n\n"));
  }

  /** A paragraph: non-empty and without surrounding whitespace. */
  predicate Trimmed(x: string) {
    x != [] && !IsSpace(x[0]) && !IsSpace(x[|x| - 1])
  }

  /** `x` is the strip of one of `pieces`. */
  predicate StripOfSome(x: string, pieces: seq<string>) {
    exists j :: 0 <= j < |pieces| && x == Strip(pieces[j])
  }

  /** A non-empty strip is a paragraph. */
  lemma StripTrimmedNonEmpty(x: string)
    requires Strip(x) != []
    ensures Trimmed(Strip(x))
  {
  }

  /** `x` is a paragraph and the strip of one of `pieces`. */
  predicate Paragraph(x: string, pieces: seq<string>) {
    Trimmed(x) && StripOfSome(x, pieces)
  }

  /** Every element of `r` is a paragraph and the strip of one of `pieces`. */
  predicate ParagraphsOf(r: seq<string>, pieces: seq<string>) {
    forall k :: 0 <= k < |r| ==> Paragraph(r[k], pieces)
  }

  /** Each kept piece is the strip of one of the pieces, non-empty and without surrounding
      whitespace. */
  lemma StrippedNonEmptySpec(pieces: seq<string>)
    ensures ParagraphsOf(StrippedNonEmpty(pieces), pieces)
  {
    var r := StrippedNonEmpty(pieces);
    var idx := StrippedNonEmptyComprehension(pieces);
    forall k | 0 <= k < |r| ensures Paragraph(r[k], pieces) {
      var j := idx[k];
      assert NonBlank(pieces[j]) && r[k] == Strip(pieces[j]);
      StripTrimmedNonEmpty(pieces[j]);
    }
  }

  /** The strip of a piece of the text occurs in the text. */
  lemma StripOfSomeInText(x: string, pieces: seq<string>, text: string)
    requires StripOfSome(x, pieces) && Join("\n\n", pieces) == text
    ensures IsSubstring(x, text)
  {
    var j :| 0 <= j < |pieces| && x == Strip(pieces[j]);
    JoinContains("\n\n", pieces, j);
    assert OccursAt(x, pieces[j], |pieces[j]| - |LStrip(pieces[j])|);
    SubstringTrans(x, pieces[j], text);
  }

  /** Every paragraph is non-empty, without surrounding whitespace, and occurs in the text. */
  lemma SplitIntoParagraphsSpec(text: string)
    ensures var r := SplitIntoParagraphs(text);
      forall k :: 0 <= k < |r| ==> Trimmed(r[k]) && IsSubstring(r[k], text)
  {
    var pieces := Split(text, "\n\n");
    var r := SplitIntoParagraphs(text);
    StrippedNonEmptySpec(pieces);
    JoinSplit(text, "\n\n");
    forall k | 0 <= k < |r| ensures Trimmed(r[k]) && IsSubstring(r[k], text) {
      assert Paragraph(r[k], pieces);
      StripOfSomeInText(r[k], pieces, text);
    }
  }

  /** A text without line feeds is at most one paragraph. */
  lemma OneParagraph(text: string)
    requires '\n' !in text
    ensures |SplitIntoParagraphs(text)| <= 1
  {
    forall i | 0 <= i <= |text| - 2 ensures !OccursAt("\n\n", text, i) {
      assert text[i] in text;
    }
    SplitWithoutSeparator(text, "\n\n");
  }

  /** Since `clean` turns every line feed into a space, the paragraphs of a cleaned text are
      at most one. */
  lemma CleanOneParagraph(text: string)
    ensures |SplitIntoParagraphs(Clean(text))| <= 1
  {
    CleanSpec(text);
    SingleSpacedNoNewline(Clean(text));
    OneParagraph(Clean(text));
  }
}
