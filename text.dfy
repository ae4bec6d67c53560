/**
 * The three Python string operations the grammar reader is built from:
 * `str.strip()`, `str.split(sep)` and `str.split()` (split on runs of
 * whitespace).  Strings are sequences of code points.
 */
module Text {
  import opened Wrappers

  /** Python's `str.isspace()` for a single code point. */
  predicate IsSpace(c: char) {
    || ('\U{0009}' <= c <= '\U{000D}')
    || ('\U{001C}' <= c <= '\U{0020}')
    || c == '\U{0085}' || c == '\U{00A0}' || c == '\U{1680}'
    || ('\U{2000}' <= c <= '\U{200A}')
    || c == '\U{2028}' || c == '\U{2029}' || c == '\U{202F}'
    || c == '\U{205F}' || c == '\U{3000}'
  }

  predicate AllSpace(s: string) {
    forall i :: 0 <= i < |s| ==> IsSpace(s[i])
  }

  /** `s.lstrip()`. */
  function TrimStart(s: string): string {
    if s != [] && IsSpace(s[0]) then TrimStart(s[1..]) else s
  }

  /** `s.rstrip()`. */
  function TrimEnd(s: string): string {
    if s != [] && IsSpace(s[|s| - 1]) then TrimEnd(s[..|s| - 1]) else s
  }

  /** `s.strip()`. */
  function Strip(s: string): string {
    TrimEnd(TrimStart(s))
  }

  /** Left stripping drops the longest all-whitespace prefix and keeps the rest. */
  lemma {:induction false} TrimStartSpec(s: string)
    ensures |TrimStart(s)| <= |s| && TrimStart(s) == s[|s| - |TrimStart(s)|..]
    ensures AllSpace(s[..|s| - |TrimStart(s)|])
    ensures TrimStart(s) != [] ==> !IsSpace(TrimStart(s)[0])
  {
    if s != [] && IsSpace(s[0]) {
      TrimStartSpec(s[1..]);
      var k := |s| - |TrimStart(s)|;
      assert s[..k] == [s[0]] + s[1..][..k - 1];
    }
  }

  /** Right stripping drops the longest all-whitespace suffix and keeps the rest. */
  lemma {:induction false} TrimEndSpec(s: string)
    ensures |TrimEnd(s)| <= |s| && TrimEnd(s) == s[..|TrimEnd(s)|]
    ensures AllSpace(s[|TrimEnd(s)|..])
    ensures TrimEnd(s) != [] ==> !IsSpace(TrimEnd(s)[|TrimEnd(s)| - 1])
  {
    if s != [] && IsSpace(s[|s| - 1]) {
      var init := s[..|s| - 1];
      TrimEndSpec(init);
      var k := |TrimEnd(s)|;
      assert s[k..] == init[k..] + [s[|s| - 1]];
    }
  }

  /** Stripping leaves a piece of the input with no whitespace at either end, and only whitespace went. */
  lemma StripSpec(s: string)
    ensures exists i, j :: 0 <= i <= j <= |s| && Strip(s) == s[i..j] && AllSpace(s[..i]) && AllSpace(s[j..])
    ensures Strip(s) != [] ==> !IsSpace(Strip(s)[0]) && !IsSpace(Strip(s)[|Strip(s)| - 1])
  {
    var t := TrimStart(s);
    TrimStartSpec(s);
    TrimEndSpec(t);
    var i := |s| - |t|;
    var j := i + |TrimEnd(t)|;
    assert Strip(s) == s[i..j];
    assert s[j..] == t[|TrimEnd(t)|..];
  }

  /** `sep` occurs in `s` starting at index `i`. */
  predicate OccursAt(s: string, sep: string, i: int) {
    0 <= i && i + |sep| <= |s| && s[i..i + |sep|] == sep
  }

  /** `s.find(sep)`: the leftmost occurrence of `sep`, if any. */
  function IndexOf(s: string, sep: string): (r: Option<nat>)
    ensures r.Some? ==> OccursAt(s, sep, r.value)
    ensures r.Some? ==> forall j :: 0 <= j < r.value ==> !OccursAt(s, sep, j)
    ensures r.None? ==> forall j :: !OccursAt(s, sep, j)
    decreases |s|
  {
    if |s| < |sep| then None
    else if s[..|sep|] == sep then Some(0)
    else
      var rest := IndexOf(s[1..], sep);
      assert forall j :: 1 <= j ==> (OccursAt(s, sep, j) <==> OccursAt(s[1..], sep, j - 1)) by {
        forall j | 1 <= j ensures OccursAt(s, sep, j) <==> OccursAt(s[1..], sep, j - 1) {
          OccursShift(s, sep, j);
        }
      }
      match rest
      case None => None
      case Some(k) => Some(k + 1)
  }

  /** An occurrence past the first character is an occurrence in the tail. */
  lemma OccursShift(s: string, sep: string, j: int)
    requires s != [] && 1 <= j
    ensures OccursAt(s, sep, j) <==> OccursAt(s[1..], sep, j - 1)
  {
    if j + |sep| <= |s| {
      var here := s[j..j + |sep|];
      var there := s[1..][j - 1..j - 1 + |sep|];
      forall k | 0 <= k < |sep| ensures here[k] == there[k] {
        assert s[1..][j - 1 + k] == s[j + k];
      }
      assert here == there;
    }
  }

  /** `sep in s`. */
  predicate Contains(s: string, sep: string) {
    IndexOf(s, sep).Some?
  }

  /** `s.split(sep)` for a non-empty separator: cut at every occurrence, scanning left to right. */
  function Split(s: string, sep: string): (r: seq<string>)
    requires sep != []
    ensures |r| >= 1
    decreases |s|
  {
    match IndexOf(s, sep)
    case None => [s]
    case Some(i) => [s[..i]] + Split(s[i + |sep|..], sep)
  }

  /** The text before the leftmost occurrence does not contain the separator. */
  lemma HeadClean(s: string, sep: string, i: nat)
    requires sep != [] && IndexOf(s, sep) == Some(i)
    ensures !Contains(s[..i], sep)
  {
    var head := s[..i];
    if IndexOf(head, sep).Some? {
      var j := IndexOf(head, sep).value;
      assert head[j..j + |sep|] == s[j..j + |sep|];
      assert OccursAt(s, sep, j);
    }
  }

  /** No piece of a split contains the separator. */
  lemma {:induction false} SplitPieces(s: string, sep: string)
    requires sep != []
    ensures forall k :: 0 <= k < |Split(s, sep)| ==> !Contains(Split(s, sep)[k], sep)
    decreases |s|
  {
    match IndexOf(s, sep)
    case None =>
    case Some(i) =>
      var head := s[..i];
      HeadClean(s, sep, i);
      SplitPieces(s[i + |sep|..], sep);
      assert Split(s, sep) == [head] + Split(s[i + |sep|..], sep);
  }

  /** `sep.join(parts)`. */
  function Join(parts: seq<string>, sep: string): string {
    if parts == [] then ""
    else if |parts| == 1 then parts[0]
    else parts[0] + sep + Join(parts[1..], sep)
  }

  /** Splitting loses nothing: joining the pieces with the separator gives the input back. */
  lemma {:induction false} JoinSplit(s: string, sep: string)
    requires sep != []
    ensures Join(Split(s, sep), sep) == s
    decreases |s|
  {
    match IndexOf(s, sep)
    case None =>
    case Some(i) =>
      var rest := s[i + |sep|..];
      var tail := Split(rest, sep);
      JoinSplit(rest, sep);
      assert Split(s, sep) == [s[..i]] + tail;
      assert Join([s[..i]] + tail, sep) == s[..i] + sep + Join(tail, sep) by {
        assert ([s[..i]] + tail)[1..] == tail;
      }
      assert s == s[..i] + sep + rest by {
        assert s[i..i + |sep|] == sep;
      }
  }

  /** Length of the run of non-whitespace characters at the start of `s`. */
  function WordLength(s: string): (n: nat)
    ensures n <= |s|
    ensures forall i :: 0 <= i < n ==> !IsSpace(s[i])
    ensures n < |s| ==> IsSpace(s[n])
  {
    if s == [] || IsSpace(s[0]) then 0 else 1 + WordLength(s[1..])
  }

  /** `s.split()`: the maximal runs of non-whitespace characters, in order. */
  function Words(s: string): (r: seq<string>)
    ensures forall k :: 0 <= k < |r| ==> r[k] != [] && !exists i :: 0 <= i < |r[k]| && IsSpace(r[k][i])
    decreases |s|
  {
    if s == [] then []
    else if IsSpace(s[0]) then Words(s[1..])
    else
      var n := WordLength(s);
      [s[..n]] + Words(s[n..])
  }

  /** `s` with every whitespace character deleted. */
  function Squeeze(s: string): string {
    if s == [] then ""
    else (if IsSpace(s[0]) then "" else [s[0]]) + Squeeze(s[1..])
  }

  function Concat(ws: seq<string>): string {
    if ws == [] then "" else ws[0] + Concat(ws[1..])
  }

  lemma {:induction false} SqueezeAppend(a: string, b: string)
    ensures Squeeze(a + b) == Squeeze(a) + Squeeze(b)
    decreases |a|
  {
    if a != [] {
      var head := if IsSpace(a[0]) then "" else [a[0]];
      assert (a + b)[0] == a[0];
      assert (a + b)[1..] == a[1..] + b;
      calc {
        Squeeze(a + b);
        head + Squeeze(a[1..] + b);
        { SqueezeAppend(a[1..], b); }
        head + (Squeeze(a[1..]) + Squeeze(b));
        Squeeze(a) + Squeeze(b);
      }
    } else {
      assert a + b == b;
    }
  }

  lemma {:induction false} SqueezeWord(s: string)
    requires forall i :: 0 <= i < |s| ==> !IsSpace(s[i])
    ensures Squeeze(s) == s
    decreases |s|
  {
    if s != [] {
      SqueezeWord(s[1..]);
    }
  }

  /** The words of `s` are exactly its non-whitespace characters, in order. */
  lemma {:induction false} WordsConcat(s: string)
    ensures Concat(Words(s)) == Squeeze(s)
    decreases |s|
  {
    if s == [] {
    } else if IsSpace(s[0]) {
      WordsConcat(s[1..]);
    } else {
      var n := WordLength(s);
      WordsConcat(s[n..]);
      SqueezeWord(s[..n]);
      SqueezeAppend(s[..n], s[n..]);
      assert s == s[..n] + s[n..];
    }
  }

  /** A blank alternative has no words: it is the empty right-hand side. */
  lemma {:induction false} WordsBlank(s: string)
    ensures Words(s) == [] <==> AllSpace(s)
    decreases |s|
  {
    if s != [] {
      WordsBlank(s[1..]);
      if IsSpace(s[0]) {
        assert AllSpace(s) <==> AllSpace(s[1..]) by {
          if AllSpace(s[1..]) {
            forall i | 0 <= i < |s| ensures IsSpace(s[i]) {
              if i > 0 { assert s[i] == s[1..][i - 1]; }
            }
          }
        }
      }
    }
  }

  /** A word of `split()`: a non-empty run without whitespace. */
  predicate IsWord(w: string) {
    w != [] && forall i :: 0 <= i < |w| ==> !IsSpace(w[i])
  }

  /** `gaps[0] + words[0] + gaps[1] + ... + words[n - 1] + gaps[n]`. */
  function Weave(gaps: seq<string>, words: seq<string>): string
    requires |gaps| == |words| + 1
    decreases |words|
  {
    if words == [] then gaps[0] else gaps[0] + words[0] + Weave(gaps[1..], words[1..])
  }

  /** Whitespace gaps, each one between two words non-empty. */
  predicate Gapped(gaps: seq<string>) {
    && (forall k :: 0 <= k < |gaps| ==> AllSpace(gaps[k]))
    && (forall k :: 0 < k < |gaps| - 1 ==> gaps[k] != [])
  }

  /** The whitespace before, between and after the words of `s`. */
  function Gaps(s: string): (r: seq<string>)
    ensures |r| == |Words(s)| + 1
    decreases |s|
  {
    if s == [] then [""]
    else if IsSpace(s[0]) then
      var rest := Gaps(s[1..]);
      [[s[0]] + rest[0]] + rest[1..]
    else [""] + Gaps(s[WordLength(s)..])
  }

  lemma ConsAssoc(c: char, a: string, b: string)
    ensures ([c] + a) + b == [c] + (a + b)
  {
  }

  /** A character put in front of the first gap is put in front of the whole string. */
  lemma WeaveCons(c: char, gaps: seq<string>, gaps': seq<string>, words: seq<string>)
    requires |gaps| == |gaps'| == |words| + 1
    requires gaps'[0] == [c] + gaps[0] && gaps'[1..] == gaps[1..]
    ensures Weave(gaps', words) == [c] + Weave(gaps, words)
  {
    if words != [] {
      var tail := Weave(gaps[1..], words[1..]);
      assert Weave(gaps', words) == (([c] + gaps[0]) + words[0]) + tail;
      assert Weave(gaps, words) == (gaps[0] + words[0]) + tail;
      ConsAssoc(c, gaps[0], words[0]);
      ConsAssoc(c, gaps[0] + words[0], tail);
    }
  }

  /** Every gap of `s` is whitespace. */
  lemma {:induction false} GapsSpace(s: string)
    ensures forall k :: 0 <= k < |Gaps(s)| ==> AllSpace(Gaps(s)[k])
    decreases |s|
  {
    var gaps := Gaps(s);
    if s == [] {
    } else if IsSpace(s[0]) {
      var rest := Gaps(s[1..]);
      GapsSpace(s[1..]);
      assert AllSpace(gaps[0]) by {
        forall i | 0 <= i < |gaps[0]| ensures IsSpace(gaps[0][i]) {
          if i > 0 { assert gaps[0][i] == rest[0][i - 1]; }
        }
      }
      assert forall k :: 0 < k < |gaps| ==> gaps[k] == rest[k];
    } else {
      var t := s[WordLength(s)..];
      GapsSpace(t);
      assert forall k :: 0 < k < |gaps| ==> gaps[k] == Gaps(t)[k - 1];
    }
  }

  /** The gaps between words are non-empty, and so is the first when `s` starts with whitespace. */
  lemma {:induction false} GapsInner(s: string)
    ensures forall k :: 0 < k < |Gaps(s)| - 1 ==> Gaps(s)[k] != []
    ensures s != [] && IsSpace(s[0]) ==> Gaps(s)[0] != []
    decreases |s|
  {
    var gaps := Gaps(s);
    if s == [] {
    } else if IsSpace(s[0]) {
      GapsInner(s[1..]);
      assert forall k :: 0 < k < |gaps| ==> gaps[k] == Gaps(s[1..])[k];
    } else {
      var t := s[WordLength(s)..];
      GapsInner(t);
      assert forall k :: 0 < k < |gaps| ==> gaps[k] == Gaps(t)[k - 1];
      if t == [] {
        assert Words(t) == [];
      }
    }
  }

  /** The gaps of `s` are whitespace, non-empty between words. */
  lemma GapsGapped(s: string)
    ensures Gapped(Gaps(s))
  {
    GapsSpace(s);
    GapsInner(s);
  }

  /** `s` is its words with the whitespace gaps put back between them: `split()` loses only whitespace. */
  lemma {:induction false} WordsWeave(s: string)
    ensures Gapped(Gaps(s))
    ensures Weave(Gaps(s), Words(s)) == s
    decreases |s|
  {
    GapsGapped(s);
    if s == [] {
    } else if IsSpace(s[0]) {
      WordsWeave(s[1..]);
      var rest := Gaps(s[1..]);
      assert Gaps(s)[1..] == rest[1..];
      WeaveCons(s[0], rest, Gaps(s), Words(s[1..]));
      assert s == [s[0]] + s[1..];
    } else {
      var n := WordLength(s);
      var t := s[n..];
      WordsWeave(t);
      assert Gaps(s)[1..] == Gaps(t);
      assert Words(s)[1..] == Words(t);
      assert s == s[..n] + t;
    }
  }

  /** Whitespace in front changes no word. */
  lemma {:induction false} WordsSpacePrefix(a: string, t: string)
    requires AllSpace(a)
    ensures Words(a + t) == Words(t)
    decreases |a|
  {
    if a == [] {
      assert a + t == t;
    } else {
      assert (a + t)[0] == a[0];
      assert (a + t)[1..] == a[1..] + t;
      assert AllSpace(a[1..]) by {
        forall i | 0 <= i < |a[1..]| ensures IsSpace(a[1..][i]) {
          assert a[1..][i] == a[i + 1];
        }
      }
      WordsSpacePrefix(a[1..], t);
    }
  }

  /** The run of non-whitespace at the start of `w + t` is `w` when `t` starts with whitespace or is empty. */
  lemma {:induction false} WordLengthPrefix(w: string, t: string)
    requires IsWord(w) && (t == [] || IsSpace(t[0]))
    ensures WordLength(w + t) == |w|
    decreases |w|
  {
    assert (w + t)[0] == w[0];
    assert (w + t)[1..] == w[1..] + t;
    if |w| == 1 {
      assert w[1..] + t == t;
    } else {
      assert IsWord(w[1..]) by {
        forall i | 0 <= i < |w[1..]| ensures !IsSpace(w[1..][i]) {
          assert w[1..][i] == w[i + 1];
        }
      }
      WordLengthPrefix(w[1..], t);
    }
  }

  /** A word followed by whitespace or by nothing is the first word. */
  lemma WordsWordPrefix(w: string, t: string)
    requires IsWord(w) && (t == [] || IsSpace(t[0]))
    ensures Words(w + t) == [w] + Words(t)
  {
    WordLengthPrefix(w, t);
    assert (w + t)[..|w|] == w;
    assert (w + t)[|w|..] == t;
  }

  /** A weave starting with a non-empty gap, or one with no words, starts with whitespace or is empty. */
  lemma WeaveStart(gaps: seq<string>, words: seq<string>)
    requires |gaps| == |words| + 1 && AllSpace(gaps[0]) && (gaps[0] != [] || words == [])
    ensures Weave(gaps, words) == [] || IsSpace(Weave(gaps, words)[0])
  {
    if gaps[0] != [] {
      assert Weave(gaps, words)[0] == gaps[0][0];
    }
  }

  /**
   * Any string made of non-empty words without whitespace and whitespace
   * gaps, non-empty between two words, splits back into exactly those words.
   * With `WordsWeave`, the words of `split()` are the maximal runs of
   * non-whitespace characters.
   */
  lemma {:induction false} WordsOfWeave(gaps: seq<string>, words: seq<string>)
    requires |gaps| == |words| + 1 && Gapped(gaps)
    requires forall k :: 0 <= k < |words| ==> IsWord(words[k])
    ensures Words(Weave(gaps, words)) == words
    decreases |words|
  {
    if words == [] {
      WordsBlank(gaps[0]);
    } else {
      var rest := Weave(gaps[1..], words[1..]);
      assert Gapped(gaps[1..]) by {
        assert forall k :: 0 <= k < |gaps[1..]| ==> gaps[1..][k] == gaps[k + 1];
      }
      assert gaps[1..][0] == gaps[1];
      WeaveStart(gaps[1..], words[1..]);
      WordsOfWeave(gaps[1..], words[1..]);
      assert gaps[0] + words[0] + rest == gaps[0] + (words[0] + rest);
      WordsSpacePrefix(gaps[0], words[0] + rest);
      WordsWordPrefix(words[0], rest);
      assert words == [words[0]] + words[1..];
    }
  }
}
