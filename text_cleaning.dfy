/**
 * The text normaliser `clean_text`: lowercase, keep only Turkish letters and
 * whitespace, split on whitespace, drop stop words, stem every token and join
 * the stems with single spaces.
 *
 * Lowercasing, the stop-word list and the stemmer come from libraries; they are
 * fields of a `Normalizer` and are otherwise unconstrained.
 */
module TextCleaning {

  /** The library parts of the normaliser: `str.lower`, NLTK's Turkish stop words
      and the Turkish stemmer. */
  datatype Normalizer = Normalizer(
    lower: string -> string,
    stopWords: set<string>,
    stem: string -> string)

  /** Python's whitespace class (`str.isspace`), which both the regular
      expression class `\s` and `str.split()` use. */
  predicate IsSpace(c: char) {
    c == ' ' || ('\t' <= c <= '\r') || ('\U{1C}' <= c <= '\U{1F}')
    || c == '\U{85}' || c == '\U{A0}' || c == '\U{1680}'
    || ('\U{2000}' <= c <= '\U{200A}') || c == '\U{2028}' || c == '\U{2029}'
    || c == '\U{202F}' || c == '\U{205F}' || c == '\U{3000}'
  }

  /** The letter class the filter keeps: a to z and the Turkish letters
      c-cedilla, g-breve, dotless i, o-umlaut, s-cedilla and u-umlaut. */
  predicate IsLetter(c: char) {
    ('a' <= c <= 'z')
    || c == '\U{E7}' || c == '\U{11F}' || c == '\U{131}'
    || c == '\U{F6}' || c == '\U{15F}' || c == '\U{FC}'
  }

  predicate Kept(c: char) {
    IsLetter(c) || IsSpace(c)
  }

  /** A token as `str.split()` produces it: non-empty, no whitespace. */
  predicate IsWord(w: string) {
    w != [] && forall i :: 0 <= i < |w| ==> !IsSpace(w[i])
  }

  // ---------------------------------------------------------------------------
  // Step 2: the character filter

  /** Removes every character outside the letter class and whitespace. */
  function KeepLetters(s: string): (r: string)
    ensures |r| <= |s|
    ensures forall i :: 0 <= i < |r| ==> Kept(r[i])
    ensures forall c :: c in r <==> c in s && Kept(c)
  {
    if s == [] then []
    else (if Kept(s[0]) then [s[0]] else []) + KeepLetters(s[1..])
  }

  /** The filter works character by character, so it keeps the order of what it keeps. */
  lemma {:induction false} KeepLettersAppend(a: string, b: string)
    ensures KeepLetters(a + b) == KeepLetters(a) + KeepLetters(b)
  {
    if a == [] {
      assert a + b == b;
    } else {
      assert (a + b)[1..] == a[1..] + b;
      KeepLettersAppend(a[1..], b);
    }
  }

  /** A string is left untouched exactly when every character is in the class. */
  lemma {:induction false} KeepLettersIdentity(s: string)
    ensures KeepLetters(s) == s <==> forall i :: 0 <= i < |s| ==> Kept(s[i])
  {
    if s != [] {
      KeepLettersIdentity(s[1..]);
      if !Kept(s[0]) {
        assert |KeepLetters(s)| <= |s[1..]| < |s|;
      } else if KeepLetters(s) == s {
        assert KeepLetters(s[1..]) == s[1..];
      } else {
        assert KeepLetters(s[1..]) != s[1..];
      }
    }
  }

  // ---------------------------------------------------------------------------
  // Step 3: `str.split()` with no separator

  /** The input with its leading whitespace removed. */
  function SkipSpaces(s: string): (r: string)
    ensures |r| <= |s| && r == s[|s| - |r|..]
    ensures r != [] ==> !IsSpace(r[0])
    ensures forall i :: 0 <= i < |s| - |r| ==> IsSpace(s[i])
  {
    if s != [] && IsSpace(s[0]) then SkipSpaces(s[1..]) else s
  }

  /** The longest prefix of the input without whitespace. */
  function FirstWord(s: string): (w: string)
    ensures |w| <= |s| && w == s[..|w|]
    ensures forall i :: 0 <= i < |w| ==> !IsSpace(w[i])
    ensures |w| < |s| ==> IsSpace(s[|w|])
  {
    if s == [] || IsSpace(s[0]) then [] else [s[0]] + FirstWord(s[1..])
  }

  /** The maximal runs of non-whitespace characters, in order. */
  function Split(s: string): (ws: seq<string>)
    ensures forall i :: 0 <= i < |ws| ==> IsWord(ws[i])
    decreases |s|
  {
    var t := SkipSpaces(s);
    if t == [] then []
    else
      var w := FirstWord(t);
      assert w[0] == t[0];
      [w] + Split(t[|w|..])
  }

  /** Every entry of the list is a word. */
  predicate AllWords(ws: seq<string>) {
    forall i :: 0 <= i < |ws| ==> IsWord(ws[i])
  }

  /** Python's `' '.join(ws)`. */
  function JoinWords(ws: seq<string>): (r: string)
    ensures ws == [] ==> r == ""
    ensures ws != [] ==> ws[0] <= r
    ensures |r| == |Concat(ws)| + (if ws == [] then 0 else |ws| - 1)
  {
    if ws == [] then ""
    else if |ws| == 1 then ws[0]
    else ws[0] + " " + JoinWords(ws[1..])
  }

  /** The concatenation of a list of words. */
  function Concat(ws: seq<string>): string {
    if ws == [] then "" else ws[0] + Concat(ws[1..])
  }

  lemma ConcatCons(w: string, ws: seq<string>)
    ensures Concat([w] + ws) == w + Concat(ws)
  {
    assert ([w] + ws)[1..] == ws;
  }

  /** The non-whitespace characters of a string, in order. */
  function NonSpace(s: string): string {
    if s == [] then "" else (if IsSpace(s[0]) then "" else [s[0]]) + NonSpace(s[1..])
  }

  lemma {:induction false} NonSpaceAppend(a: string, b: string)
    ensures NonSpace(a + b) == NonSpace(a) + NonSpace(b)
  {
    if a == [] {
      assert a + b == b;
    } else {
      assert (a + b)[1..] == a[1..] + b;
      NonSpaceAppend(a[1..], b);
    }
  }

  lemma {:induction false} NonSpaceOfSpaces(s: string)
    requires forall i :: 0 <= i < |s| ==> IsSpace(s[i])
    ensures NonSpace(s) == ""
  {
    if s != [] {
      NonSpaceOfSpaces(s[1..]);
    }
  }

  lemma {:induction false} NonSpaceOfWord(s: string)
    requires forall i :: 0 <= i < |s| ==> !IsSpace(s[i])
    ensures NonSpace(s) == s
  {
    if s != [] {
      NonSpaceOfWord(s[1..]);
    }
  }

  /** Skipping leading whitespace loses no other character. */
  lemma SkipSpacesNonSpace(s: string)
    ensures NonSpace(SkipSpaces(s)) == NonSpace(s)
  {
    var t := SkipSpaces(s);
    var skipped := s[..|s| - |t|];
    assert s == skipped + t;
    NonSpaceAppend(skipped, t);
    NonSpaceOfSpaces(skipped);
  }

  /** Splitting loses only whitespace: the words hold every other character of the
      input, in the input's order. */
  lemma {:induction false} SplitKeepsCharacters(s: string)
    ensures Concat(Split(s)) == NonSpace(s)
    decreases |s|
  {
    var t := SkipSpaces(s);
    SkipSpacesNonSpace(s);
    if t != [] {
      var w := FirstWord(t);
      var rest := t[|w|..];
      assert w[0] == t[0];
      TakeDrop(t, |w|);
      NonSpaceAppend(w, rest);
      NonSpaceOfWord(w);
      SplitKeepsCharacters(rest);
      SplitUnfold(s);
      ConcatCons(w, Split(rest));
    }
  }

  /** Every character of every word comes from the input. */
  lemma SplitCharactersFromInput(s: string, i: int, j: int)
    requires 0 <= i < |Split(s)| && 0 <= j < |Split(s)[i]|
    ensures Split(s)[i][j] in s
  {
    var ws := Split(s);
    ConcatHasWordCharacters(ws, i, j);
    SplitKeepsCharacters(s);
    NonSpaceSubset(s, ws[i][j]);
  }

  lemma {:induction false} ConcatHasWordCharacters(ws: seq<string>, i: int, j: int)
    requires 0 <= i < |ws| && 0 <= j < |ws[i]|
    ensures ws[i][j] in Concat(ws)
  {
    if i == 0 {
      assert Concat(ws) == ws[0] + Concat(ws[1..]);
      assert Concat(ws)[j] == ws[0][j];
    } else {
      ConcatHasWordCharacters(ws[1..], i - 1, j);
      assert Concat(ws) == ws[0] + Concat(ws[1..]);
    }
  }

  lemma {:induction false} NonSpaceSubset(s: string, c: char)
    requires c in NonSpace(s)
    ensures c in s && !IsSpace(c)
  {
    if s != [] {
      assert NonSpace(s) == (if IsSpace(s[0]) then "" else [s[0]]) + NonSpace(s[1..]);
      if c in NonSpace(s[1..]) {
        NonSpaceSubset(s[1..], c);
      }
    }
  }

  lemma {:induction false} FirstWordOfJoin(w: string, rest: string)
    requires forall i :: 0 <= i < |w| ==> !IsSpace(w[i])
    requires rest == [] || IsSpace(rest[0])
    ensures FirstWord(w + rest) == w
  {
    if w == [] {
      assert w + rest == rest;
    } else {
      assert (w + rest)[1..] == w[1..] + rest;
      FirstWordOfJoin(w[1..], rest);
    }
  }

  lemma {:induction false} JoinWordsStart(ws: seq<string>)
    requires ws != [] && ws[0] != []
    ensures JoinWords(ws) != [] && JoinWords(ws)[0] == ws[0][0]
  {
  }

  lemma HeadTail<T>(s: seq<T>)
    requires s != []
    ensures [s[0]] + s[1..] == s
  {
  }

  lemma TakeDrop<T>(s: seq<T>, k: nat)
    requires k <= |s|
    ensures s == s[..k] + s[k..]
  {
  }

  lemma SliceAppend<T>(p: seq<T>, q: seq<T>, k: nat)
    requires k <= |p|
    ensures (p + q)[k..] == p[k..] + q
  {
  }

  lemma AppendAssoc<T>(p: seq<T>, q: seq<T>, r: seq<T>)
    ensures p + (q + r) == p + q + r
  {
  }

  lemma ConsAppend<T>(x: T, p: seq<T>, q: seq<T>)
    ensures [x] + (p + q) == ([x] + p) + q
  {
  }

  /** A single word splits into itself. */
  lemma SplitOneWord(w: string)
    requires IsWord(w)
    ensures Split(w) == [w]
  {
    assert w + [] == w;
    FirstWordOfJoin(w, []);
    assert w[|w|..] == [];
  }

  /** A word, one space and a string starting with a word split into that word
      followed by the words of the string. */
  lemma SplitWordSpace(w: string, rest: string)
    requires IsWord(w)
    requires rest != [] && !IsSpace(rest[0])
    ensures Split(w + " " + rest) == [w] + Split(rest)
  {
    var s := w + " " + rest;
    assert s == w + (" " + rest);
    FirstWordOfJoin(w, " " + rest);
    assert s[|w|..] == " " + rest;
    assert (" " + rest)[1..] == rest;
    assert SkipSpaces(" " + rest) == rest;
  }

  /** Joining words with single spaces and splitting again gives back the words. */
  lemma {:induction false} SplitJoinWords(ws: seq<string>)
    requires forall i :: 0 <= i < |ws| ==> IsWord(ws[i])
    ensures Split(JoinWords(ws)) == ws
  {
    if ws == [] {
      assert SkipSpaces("") == "";
    } else if |ws| == 1 {
      SplitOneWord(ws[0]);
    } else {
      var rest := JoinWords(ws[1..]);
      assert JoinWords(ws) == ws[0] + " " + rest;
      JoinWordsStart(ws[1..]);
      SplitWordSpace(ws[0], rest);
      SplitJoinWords(ws[1..]);
      assert Split(JoinWords(ws)) == [ws[0]] + ws[1..];
      HeadTail(ws);
    }
  }

  /** `SplitJoinWords` for any list, with its precondition as a hypothesis. */
  lemma SplitJoinWordsWhenWords(ws: seq<string>)
    ensures AllWords(ws) ==> Split(JoinWords(ws)) == ws
  {
    if AllWords(ws) {
      SplitJoinWords(ws);
    }
  }

  /** `' '.join` of an empty list is the empty string; a join of words is empty
      only then. */
  lemma {:induction false} JoinWordsEmpty(ws: seq<string>)
    requires forall i :: 0 <= i < |ws| ==> IsWord(ws[i])
    ensures JoinWords(ws) == "" <==> ws == []
  {
    if ws != [] {
      JoinWordsStart(ws);
    }
  }

  lemma {:induction false} SkipSpacesOfSpaces(s: string)
    requires forall i :: 0 <= i < |s| ==> IsSpace(s[i])
    ensures SkipSpaces(s) == []
  {
    if s != [] {
      SkipSpacesOfSpaces(s[1..]);
    }
  }

  /** A string of whitespace only splits into no words. */
  lemma SplitOfSpaces(s: string)
    requires forall i :: 0 <= i < |s| ==> IsSpace(s[i])
    ensures Split(s) == []
  {
    SkipSpacesOfSpaces(s);
  }

  lemma {:induction false} SkipSpacesAfterSpaces(p: string, x: string)
    requires forall i :: 0 <= i < |p| ==> IsSpace(p[i])
    ensures SkipSpaces(p + x) == SkipSpaces(x)
  {
    if p == [] {
      assert p + x == x;
    } else {
      assert (p + x)[0] == p[0];
      assert (p + x)[1..] == p[1..] + x;
      SkipSpacesAfterSpaces(p[1..], x);
    }
  }

  /** One step of `Split`: the first word after the leading whitespace, then the
      words of the rest. */
  lemma SplitUnfold(s: string)
    requires SkipSpaces(s) != []
    ensures var t := SkipSpaces(s);
      Split(s) == [FirstWord(t)] + Split(t[|FirstWord(t)|..])
  {
  }

  lemma {:induction false} FirstWordAppend(t: string, r: string)
    requires |FirstWord(t)| < |t|
    ensures FirstWord(t + r) == FirstWord(t)
  {
    if t != [] && !IsSpace(t[0]) {
      assert (t + r)[1..] == t[1..] + r;
      FirstWordAppend(t[1..], r);
    }
  }

  /** The first word of a string is unchanged by a whitespace character and
      anything else appended to it. */
  lemma FirstWordBeforeSpace(t: string, c: char, b: string)
    requires IsSpace(c)
    ensures FirstWord(t + ([c] + b)) == FirstWord(t)
  {
    if |FirstWord(t)| < |t| {
      FirstWordAppend(t, [c] + b);
    } else {
      assert FirstWord(t) == t;
      FirstWordOfJoin(t, [c] + b);
    }
  }

  /** Splitting after a run of whitespace is splitting what follows it. */
  lemma SplitAfterSpaces(p: string, x: string)
    requires forall i :: 0 <= i < |p| ==> IsSpace(p[i])
    ensures Split(p + x) == Split(x)
  {
    SkipSpacesAfterSpaces(p, x);
  }

  /** Words break exactly at whitespace: splitting at any whitespace character
      gives the words before it followed by the words after it. With
      `Split("") == []` and `SplitOneWord` this determines `str.split()`. */
  lemma {:induction false} SplitAtSpace(a: string, c: char, b: string)
    requires IsSpace(c)
    ensures Split(a + [c] + b) == Split(a) + Split(b)
    decreases |a|
  {
    var t := SkipSpaces(a);
    if t == [] {
      SplitAtSpaceBlank(a, c, b);
    } else {
      var w := FirstWord(t);
      assert w[0] == t[0];
      var rest := t[|w|..];
      SplitAtSpaceStep(a, c, b);
      SplitAtSpace(rest, c, b);
      ConsAppend(w, Split(rest), Split(b));
    }
  }

  /** `SplitAtSpace` when everything before the break is whitespace. */
  lemma SplitAtSpaceBlank(a: string, c: char, b: string)
    requires IsSpace(c) && SkipSpaces(a) == []
    ensures Split(a) == [] && Split(a + [c] + b) == Split(b)
  {
    assert forall i :: 0 <= i < |a + [c]| ==> IsSpace((a + [c])[i]);
    SplitAfterSpaces(a + [c], b);
  }

  /** Leading whitespace is skipped the same way whatever follows, once a
      non-whitespace character has been reached. */
  lemma {:induction false} SkipSpacesAppend(a: string, x: string)
    requires SkipSpaces(a) != []
    ensures SkipSpaces(a + x) == SkipSpaces(a) + x
  {
    assert (a + x)[0] == a[0];
    if IsSpace(a[0]) {
      assert (a + x)[1..] == a[1..] + x;
      SkipSpacesAppend(a[1..], x);
    }
  }

  /** The step of `SplitAtSpace`: the first word before the break is the first
      word of the whole string. */
  lemma SplitAtSpaceStep(a: string, c: char, b: string)
    requires IsSpace(c) && SkipSpaces(a) != []
    ensures var t := SkipSpaces(a); var w := FirstWord(t);
      Split(a + [c] + b) == [w] + Split(t[|w|..] + [c] + b)
  {
    var t := SkipSpaces(a);
    var x := [c] + b;
    var w := FirstWord(t);
    AppendAssoc(a, [c], b);
    SkipSpacesAppend(a, x);
    SplitUnfold(a + x);
    FirstWordBeforeSpace(t, c, b);
    SliceAppend(t, x, |w|);
    AppendAssoc(t[|w|..], [c], b);
  }

  // ---------------------------------------------------------------------------
  // Steps 4 and 5: stop-word removal and stemming

  /** The list comprehension that drops stop words. */
  function DropStopWords(ws: seq<string>, stop: set<string>): (r: seq<string>)
    ensures |r| <= |ws|
    ensures forall i :: 0 <= i < |r| ==> r[i] !in stop
    ensures forall w :: w in r <==> w in ws && w !in stop
  {
    if ws == [] then []
    else (if ws[0] in stop then [] else [ws[0]]) + DropStopWords(ws[1..], stop)
  }

  /** `a` is `b` with some elements left out, the rest in the same order. */
  predicate IsSubsequence<T(==)>(a: seq<T>, b: seq<T>)
    decreases |b|
  {
    a == [] || (b != [] && if a[0] == b[0] then IsSubsequence(a[1..], b[1..]) else IsSubsequence(a, b[1..]))
  }

  /** The surviving words keep their relative order. */
  lemma {:induction false} DropStopWordsKeepsOrder(ws: seq<string>, stop: set<string>)
    ensures IsSubsequence(DropStopWords(ws, stop), ws)
  {
    if ws != [] {
      var r := DropStopWords(ws[1..], stop);
      DropStopWordsKeepsOrder(ws[1..], stop);
      if ws[0] in stop {
        assert DropStopWords(ws, stop) == r;
        assert r != [] ==> r[0] != ws[0];
      } else {
        assert DropStopWords(ws, stop) == [ws[0]] + r;
        assert ([ws[0]] + r)[1..] == r;
      }
    }
  }

  lemma {:induction false} DropStopWordsAppend(a: seq<string>, b: seq<string>, stop: set<string>)
    ensures DropStopWords(a + b, stop) == DropStopWords(a, stop) + DropStopWords(b, stop)
  {
    if a == [] {
      assert a + b == b;
    } else {
      assert (a + b)[1..] == a[1..] + b;
      DropStopWordsAppend(a[1..], b, stop);
    }
  }

  /** Stems every word, one stem per word, in order. */
  function StemAll(ws: seq<string>, stem: string -> string): (r: seq<string>)
    ensures |r| == |ws|
    ensures forall i :: 0 <= i < |ws| ==> r[i] == stem(ws[i])
  {
    if ws == [] then [] else [stem(ws[0])] + StemAll(ws[1..], stem)
  }

  // ---------------------------------------------------------------------------
  // The whole normaliser

  /** The tokens that survive the filter, the split and the stop-word removal. */
  function Tokens(n: Normalizer, text: string): (ts: seq<string>)
    ensures forall i :: 0 <= i < |ts| ==> IsWord(ts[i]) && ts[i] !in n.stopWords
  {
    DropStopWords(Split(KeepLetters(n.lower(text))), n.stopWords)
  }

  /** `clean_text`: no tokens give "", and when every stem is a word the output
      splits back into exactly the stems of the tokens, in order. */
  function CleanText(n: Normalizer, text: string): (r: string)
    ensures Tokens(n, text) == [] ==> r == ""
    ensures AllWords(StemAll(Tokens(n, text), n.stem)) ==> Split(r) == StemAll(Tokens(n, text), n.stem)
  {
    var stems := StemAll(Tokens(n, text), n.stem);
    SplitJoinWordsWhenWords(stems);
    JoinWords(stems)
  }

  /** After the filter, every character is a letter of the class or whitespace. */
  lemma FilteredCharacters(n: Normalizer, text: string)
    ensures forall c :: c in KeepLetters(n.lower(text)) ==> IsLetter(c) || IsSpace(c)
  {
  }

  /** Every surviving token is a non-empty run of letters, not a stop word, and the
      tokens are the split words of the filtered text minus stop words, in order. */
  lemma TokensShape(n: Normalizer, text: string)
    ensures forall i :: 0 <= i < |Tokens(n, text)| ==> IsWord(Tokens(n, text)[i])
    ensures forall i :: 0 <= i < |Tokens(n, text)| ==> Tokens(n, text)[i] !in n.stopWords
    ensures forall i, j :: 0 <= i < |Tokens(n, text)| && 0 <= j < |Tokens(n, text)[i]| ==>
              IsLetter(Tokens(n, text)[i][j])
    ensures IsSubsequence(Tokens(n, text), Split(KeepLetters(n.lower(text))))
  {
    var filtered := KeepLetters(n.lower(text));
    var ws := Split(filtered);
    var ts := Tokens(n, text);
    DropStopWordsKeepsOrder(ws, n.stopWords);
    forall i, j | 0 <= i < |ts| && 0 <= j < |ts[i]|
      ensures IsLetter(ts[i][j])
    {
      assert ts[i] in ws;
      var k :| 0 <= k < |ws| && ws[k] == ts[i];
      SplitCharactersFromInput(filtered, k, j);
    }
  }

  /** Stemming is one-to-one and in order: the result is the stems of the tokens
      joined by single spaces, and when every stem is itself a word, splitting the
      result gives exactly one word per token. */
  lemma CleanTextWords(n: Normalizer, text: string)
    ensures var stems := StemAll(Tokens(n, text), n.stem);
      && |stems| == |Tokens(n, text)|
      && (forall i :: 0 <= i < |stems| ==> stems[i] == n.stem(Tokens(n, text)[i]))
      && CleanText(n, text) == JoinWords(stems)
    ensures (forall i :: 0 <= i < |Tokens(n, text)| ==> IsWord(n.stem(Tokens(n, text)[i]))) ==>
      Split(CleanText(n, text)) == StemAll(Tokens(n, text), n.stem)
  {
    var stems := StemAll(Tokens(n, text), n.stem);
    if forall i :: 0 <= i < |Tokens(n, text)| ==> IsWord(n.stem(Tokens(n, text)[i])) {
      SplitJoinWords(stems);
    }
  }

  /** Text without any letter of the class after lowercasing normalises to "". */
  lemma CleanTextNoLetters(n: Normalizer, text: string)
    requires forall i :: 0 <= i < |n.lower(text)| ==> !IsLetter(n.lower(text)[i])
    ensures Tokens(n, text) == []
    ensures CleanText(n, text) == ""
  {
    var filtered := KeepLetters(n.lower(text));
    forall i | 0 <= i < |filtered|
      ensures IsSpace(filtered[i])
    {
      assert filtered[i] in n.lower(text);
    }
    SplitOfSpaces(filtered);
  }

  lemma {:induction false} DropAllStopWords(ws: seq<string>, stop: set<string>)
    requires forall i :: 0 <= i < |ws| ==> ws[i] in stop
    ensures DropStopWords(ws, stop) == []
  {
    if ws != [] {
      DropAllStopWords(ws[1..], stop);
    }
  }

  /** Text whose every word is a stop word normalises to "". */
  lemma CleanTextOnlyStopWords(n: Normalizer, text: string)
    requires forall w :: w in Split(KeepLetters(n.lower(text))) ==> w in n.stopWords
    ensures Tokens(n, text) == []
    ensures CleanText(n, text) == ""
  {
    DropAllStopWords(Split(KeepLetters(n.lower(text))), n.stopWords);
  }
}
