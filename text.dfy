/**
 * The string operations the pages use: case-insensitive search
 * (`toLowerCase().includes(...)`) and whitespace trimming (`trim()`).
 * Lower-casing is ASCII-only; `trim` removes the characters ECMAScript
 * classes as white space or line terminators.
 */
module Text {

  /** ECMAScript `WhiteSpace` and `LineTerminator` code points, which `trim` strips. */
  predicate IsSpace(c: char)
  {
    || c == ' ' || c == '\t' || c == '\n' || c == '\r'
    || c == '\U{000B}' || c == '\U{000C}' || c == '\U{00A0}' || c == '\U{1680}'
    || ('\U{2000}' <= c <= '\U{200A}')
    || c == '\U{2028}' || c == '\U{2029}' || c == '\U{202F}' || c == '\U{205F}'
    || c == '\U{3000}' || c == '\U{FEFF}'
  }

  function LowerChar(c: char): (r: char)
    ensures 'A' <= c <= 'Z' ==> 'a' <= r <= 'z' && r as int - c as int == 32
    ensures !('A' <= c <= 'Z') ==> r == c
  {
    if 'A' <= c <= 'Z' then (c as int + 32) as char else c
  }

  /** `s.toLowerCase()`, restricted to ASCII letters. */
  function Lower(s: string): (r: string)
    ensures |r| == |s|
    ensures forall i :: 0 <= i < |s| ==> r[i] == LowerChar(s[i])
    ensures forall i :: 0 <= i < |r| ==> !('A' <= r[i] <= 'Z')
  {
    seq(|s|, i requires 0 <= i < |s| => LowerChar(s[i]))
  }

  /** `hay.includes(needle)`: `needle` occurs in `hay` at some position. */
  predicate Contains(hay: string, needle: string)
  {
    exists i | 0 <= i <= |hay| - |needle| :: needle <= hay[i..]
  }

  /** Every string contains the empty string, so an empty search matches everything. */
  lemma ContainsEmpty(hay: string)
    ensures Contains(hay, "")
  {
    assert "" <= hay[0..];
  }

  /** `s.trimStart()`. */
  function TrimStart(s: string): (r: string)
    ensures |r| <= |s| && r == s[|s| - |r|..]
    ensures r != [] ==> !IsSpace(r[0])
    ensures forall i :: 0 <= i < |s| - |r| ==> IsSpace(s[i])
  {
    if s != [] && IsSpace(s[0]) then TrimStart(s[1..]) else s
  }

  /** `s.trimEnd()`. */
  function TrimEnd(s: string): (r: string)
    ensures |r| <= |s| && r == s[..|r|]
    ensures r != [] ==> !IsSpace(r[|r| - 1])
    ensures forall i :: |r| <= i < |s| ==> IsSpace(s[i])
  {
    if s != [] && IsSpace(s[|s| - 1]) then TrimEnd(s[..|s| - 1]) else s
  }

  /** `s.trim()`. */
  function Trim(s: string): (r: string)
    ensures |r| <= |s|
  {
    TrimEnd(TrimStart(s))
  }

  /** No leading and no trailing white space. */
  predicate IsTrimmed(s: string)
  {
    s != [] ==> !IsSpace(s[0]) && !IsSpace(s[|s| - 1])
  }

  /** White space at the end of a suffix `s[i..]` is white space at the end of `s`. */
  lemma SuffixSpaces(s: string, i: nat, m: nat)
    requires i <= |s|
    requires forall k :: m <= k < |s[i..]| ==> IsSpace(s[i..][k])
    ensures forall k :: i + m <= k < |s| ==> IsSpace(s[k])
  {
    forall k | i + m <= k < |s|
      ensures IsSpace(s[k])
    {
      assert s[k] == s[i..][k - i];
    }
  }

  /** `trimStart` removes a prefix of white space. */
  lemma TrimStartBounds(s: string) returns (i: nat)
    ensures i <= |s| && TrimStart(s) == s[i..]
    ensures forall k :: 0 <= k < i ==> IsSpace(s[k])
  {
    i := |s| - |TrimStart(s)|;
  }

  /** `trimEnd` of a suffix `s[i..]` removes only white space at the end of `s`. */
  lemma TrimEndBounds(s: string, i: nat) returns (j: nat)
    requires i <= |s|
    ensures i <= j <= |s| && TrimEnd(s[i..]) == s[i..j]
    ensures forall k :: j <= k < |s| ==> IsSpace(s[k])
  {
    var r := TrimEnd(s[i..]);
    j := i + |r|;
    SuffixSpaces(s, i, |r|);
    assert r == s[i..][..|r|];
  }

  /** Where the trimmed text sits in its input: everything cut off on either side is white space. */
  lemma TrimBounds(s: string) returns (i: nat, j: nat)
    ensures i <= j <= |s| && Trim(s) == s[i..j]
    ensures forall k :: 0 <= k < i ==> IsSpace(s[k])
    ensures forall k :: j <= k < |s| ==> IsSpace(s[k])
  {
    i := TrimStartBounds(s);
    j := TrimEndBounds(s, i);
  }

  /** What `trim` returns has no white space at either end. */
  lemma TrimIsTrimmed(s: string)
    ensures IsTrimmed(Trim(s))
  {
    var t := TrimStart(s);
    var r := TrimEnd(t);
    if r != [] {
      assert r[0] == t[0];
    }
  }

  /** What `trim` returns has no white space at either end, and only white space was removed. */
  lemma TrimResult(s: string)
    ensures IsTrimmed(Trim(s))
    ensures exists i, j ::
      && 0 <= i <= j <= |s| && Trim(s) == s[i..j]
      && (forall k :: 0 <= k < i ==> IsSpace(s[k]))
      && (forall k :: j <= k < |s| ==> IsSpace(s[k]))
  {
    TrimIsTrimmed(s);
    var i, j := TrimBounds(s);
  }

  /** Trimming leaves a string alone exactly when it has no white space at either end. */
  lemma {:induction false} TrimFixedPoint(s: string)
    ensures Trim(s) == s <==> IsTrimmed(s)
  {
    TrimIsTrimmed(s);
    if IsTrimmed(s) {
      assert TrimStart(s) == s;
      assert TrimEnd(s) == s;
    }
  }

  /** Leading white space in front of a trimmed string is what trimming removes. */
  lemma TrimAfterSpace(w: string, s: string)
    requires forall i :: 0 <= i < |w| ==> IsSpace(w[i])
    requires s != [] && IsTrimmed(s)
    ensures Trim(w + s) == s
  {
    TrimStartAfterSpace(w, s);
    assert TrimEnd(s) == s;
  }

  /** `trimStart` removes white space in front of a text that starts with something else. */
  lemma {:induction false} TrimStartAfterSpace(w: string, s: string)
    requires forall i :: 0 <= i < |w| ==> IsSpace(w[i])
    requires s != [] && !IsSpace(s[0])
    ensures TrimStart(w + s) == s
  {
    if w == [] {
      assert w + s == s;
    } else {
      assert (w + s)[1..] == w[1..] + s;
      TrimStartAfterSpace(w[1..], s);
    }
  }
}

/**
 * The comma-separated list fields of the profile and team-project forms:
 * a stored list is rendered with `join(', ')` into a text field, and the
 * text field is parsed back with `split(',').map(s => s.trim()).filter(s => s)`.
 */
module CommaList {
  import opened Text
  import Seqs
  import opened Platform

  /** `s.split(sep)` for a one-character separator: never empty, `""` gives `[""]`. */
  function Split(s: string, sep: char): (parts: seq<string>)
    ensures |parts| >= 1
    ensures forall k :: 0 <= k < |parts| ==> sep !in parts[k]
    decreases |s|
  {
    if s == [] then [""]
    else
      var rest := Split(s[1..], sep);
      if s[0] == sep then [""] + rest
      else [[s[0]] + rest[0]] + rest[1..]
  }

  /** `xs.join(sep)`. */
  function Join(xs: seq<string>, sep: string): (s: string)
    decreases |xs|
  {
    if xs == [] then ""
    else if |xs| == 1 then xs[0]
    else xs[0] + sep + Join(xs[1..], sep)
  }

  /** `xs.map(s => s.trim())`. */
  function TrimAll(xs: seq<string>): (r: seq<string>)
    ensures |r| == |xs|
    ensures forall k :: 0 <= k < |xs| ==> r[k] == Trim(xs[k])
  {
    seq(|xs|, k requires 0 <= k < |xs| => Trim(xs[k]))
  }

  predicate NonEmpty(s: string) { s != "" }

  /** `text.split(',').map(s => s.trim()).filter(s => s)`. */
  function Parse(text: string): (xs: seq<string>)
    ensures |xs| <= |Split(text, ',')|
    ensures forall k :: 0 <= k < |xs| ==> xs[k] != ""
  {
    Seqs.Filter(TrimAll(Split(text, ',')), NonEmpty)
  }

  /** `list ? list.join(', ') : ''`: a null list renders as the empty text. */
  function Render(list: Option<seq<string>>): (text: string)
    ensures list.None? || list.value == [] ==> text == ""
    ensures list.Some? && list.value != [] ==> list.value[0] <= text
  {
    match list
    case None => ""
    case Some(xs) => Join(xs, ", ")
  }

  /** An entry that survives parsing unchanged: not empty, trimmed, comma-free. */
  predicate IsCleanEntry(s: string)
  {
    s != "" && IsTrimmed(s) && ',' !in s
  }

  /** Splitting is undone by joining with the separator. */
  lemma {:induction false} JoinSplit(s: string, sep: char)
    ensures Join(Split(s, sep), [sep]) == s
    decreases |s|
  {
    if s != [] {
      var rest := Split(s[1..], sep);
      JoinSplit(s[1..], sep);
      if s[0] == sep {
        assert Split(s, sep) == [""] + rest;
        assert ([""] + rest)[1..] == rest;
        assert s == "" + [sep] + Join(rest, [sep]);
      } else {
        var parts := Split(s, sep);
        assert parts == [[s[0]] + rest[0]] + rest[1..];
        if |rest| == 1 {
          assert s == [s[0]] + s[1..];
        } else {
          assert parts[1..] == rest[1..];
          assert Join(rest, [sep]) == rest[0] + [sep] + Join(rest[1..], [sep]);
          assert s == [s[0]] + s[1..];
        }
      }
    }
  }

  /** A separator-free piece in front of a separator becomes a part of its own. */
  lemma {:induction false} SplitAt(a: string, b: string, sep: char)
    requires sep !in a
    ensures Split(a + [sep] + b, sep) == [a] + Split(b, sep)
    decreases |a|
  {
    if a == [] {
      assert a + [sep] + b == [sep] + b;
      assert ([sep] + b)[1..] == b;
    } else {
      var s := a + [sep] + b;
      assert s[0] == a[0] && s[1..] == a[1..] + [sep] + b;
      SplitAt(a[1..], b, sep);
      assert [a[0]] + a[1..] == a;
    }
  }

  /** A separator-free string splits into itself. */
  lemma {:induction false} SplitWhole(a: string, sep: char)
    requires sep !in a
    ensures Split(a, sep) == [a]
    decreases |a|
  {
    if a != [] {
      SplitWhole(a[1..], sep);
      assert [a[0]] + a[1..] == a;
    }
  }

  /**
   * Splitting a rendered list on ',' gives the entries back, each but the
   * first with the blank that `', '` put in front of it; `w` is a
   * comma-free prefix glued to the first entry.
   */
  lemma {:induction false} SplitRendered(w: string, xs: seq<string>)
    requires xs != []
    requires ',' !in w
    requires forall k :: 0 <= k < |xs| ==> ',' !in xs[k]
    ensures Split(w + Join(xs, ", "), ',')
         == [w + xs[0]] + seq(|xs| - 1, k requires 0 <= k < |xs| - 1 => " " + xs[k + 1])
    decreases |xs|
  {
    var tail := seq(|xs| - 1, k requires 0 <= k < |xs| - 1 => " " + xs[k + 1]);
    if |xs| == 1 {
      SplitWhole(w + xs[0], ',');
      assert tail == [];
    } else {
      var rest := Join(xs[1..], ", ");
      assert w + Join(xs, ", ") == (w + xs[0]) + [','] + (" " + rest);
      SplitAt(w + xs[0], " " + rest, ',');
      SplitRendered(" ", xs[1..]);
      var tail' := seq(|xs[1..]| - 1, k requires 0 <= k < |xs[1..]| - 1 => " " + xs[1..][k + 1]);
      assert tail == [" " + xs[1]] + tail';
    }
  }

  /** Parsing the rendering of a list of clean entries gives the list back. */
  lemma {:induction false} ParseRender(xs: seq<string>)
    requires forall k :: 0 <= k < |xs| ==> IsCleanEntry(xs[k])
    ensures Parse(Render(Some(xs))) == xs
  {
    if xs == [] {
      assert Split("", ',') == [""];
      assert Trim("") == "";
      assert TrimAll([""]) == [""];
      assert Seqs.Filter([""], NonEmpty) == Seqs.Filter([], NonEmpty) == [];
    } else {
      RenderedPiecesTrim(xs);
      Seqs.FilterKeepsAll(xs, NonEmpty);
    }
  }

  /** Splitting a rendered list at its commas gives the first entry, then each other entry behind one space. */
  lemma RenderedPieces(xs: seq<string>)
    requires xs != []
    requires forall k :: 0 <= k < |xs| ==> ',' !in xs[k]
    ensures var parts := Split(Join(xs, ", "), ',');
      && |parts| == |xs| && parts[0] == xs[0]
      && forall k :: 0 < k < |xs| ==> parts[k] == " " + xs[k]
  {
    SplitRendered("", xs);
    assert "" + Join(xs, ", ") == Join(xs, ", ");
    assert "" + xs[0] == xs[0];
  }

  /** Splitting a rendered list of clean entries at its commas and trimming each piece gives back the entries. */
  lemma RenderedPiecesTrim(xs: seq<string>)
    requires xs != []
    requires forall k :: 0 <= k < |xs| ==> IsCleanEntry(xs[k])
    ensures TrimAll(Split(Join(xs, ", "), ',')) == xs
  {
    RenderedPieces(xs);
    var parts := Split(Join(xs, ", "), ',');
    forall k | 0 <= k < |xs|
      ensures Trim(parts[k]) == xs[k]
    {
      PieceTrim(parts[k], xs[k], k == 0);
    }
    assert TrimAll(parts) == xs;
  }

  /** A clean entry, alone or behind the space the separator leaves, trims back to itself. */
  lemma PieceTrim(piece: string, entry: string, first: bool)
    requires IsCleanEntry(entry)
    requires piece == if first then entry else " " + entry
    ensures Trim(piece) == entry
  {
    if first {
      TrimFixedPoint(entry);
    } else {
      TrimAfterSpace(" ", entry);
    }
  }

  /** A trimmed comma-free piece is clean unless it is empty. */
  lemma TrimmedPieceClean(piece: string)
    requires ',' !in piece
    ensures Trim(piece) != "" ==> IsCleanEntry(Trim(piece))
  {
    TrimIsTrimmed(piece);
    var e := Trim(piece);
    var a, b := TrimBounds(piece);
    forall c | 0 <= c < |e|
      ensures e[c] != ','
    {
      assert e[c] == piece[a + c];
    }
  }

  /** The trimmed pieces of a split are clean unless empty. */
  lemma TrimmedPiecesClean(pieces: seq<string>)
    requires forall k :: 0 <= k < |pieces| ==> ',' !in pieces[k]
    ensures forall k :: 0 <= k < |pieces| && TrimAll(pieces)[k] != "" ==> IsCleanEntry(TrimAll(pieces)[k])
  {
    forall k | 0 <= k < |pieces|
      ensures TrimAll(pieces)[k] != "" ==> IsCleanEntry(TrimAll(pieces)[k])
    {
      TrimmedPieceClean(pieces[k]);
    }
  }

  /** Every parsed entry is clean: no empty entry, no white space at either end, no comma. */
  lemma ParseClean(text: string)
    ensures forall k :: 0 <= k < |Parse(text)| ==> IsCleanEntry(Parse(text)[k])
  {
    var trimmed := TrimAll(Split(text, ','));
    TrimmedPiecesClean(Split(text, ','));
    assert forall e :: e in trimmed && e != "" ==> IsCleanEntry(e);
  }

  /** Parsed entries keep the order of the pieces they come from. */
  lemma ParseKeepsOrder(text: string)
    ensures Seqs.IsSubsequence(Parse(text), TrimAll(Split(text, ',')))
  {
    Seqs.FilterIsSubsequence(TrimAll(Split(text, ',')), NonEmpty);
  }

  /**
   * Parsing keeps every non-empty trimmed piece, as often as it occurs,
   * and keeps nothing that is not a trimmed piece.
   */
  lemma ParseKeepsPieces(text: string)
    ensures forall p :: p in TrimAll(Split(text, ',')) && p != "" ==>
      multiset(Parse(text))[p] == multiset(TrimAll(Split(text, ',')))[p]
    ensures forall p :: p in Parse(text) ==> p in TrimAll(Split(text, ','))
  {
    Seqs.FilterCounts(TrimAll(Split(text, ',')), NonEmpty);
  }

  /** Rendering what was parsed and parsing again changes nothing. */
  lemma ParseIdempotent(text: string)
    ensures Parse(Render(Some(Parse(text)))) == Parse(text)
  {
    ParseClean(text);
    ParseRender(Parse(text));
  }

  /** An empty or blank field gives the empty list. */
  lemma ParseEmpty(text: string)
    requires forall k :: 0 <= k < |text| ==> IsSpace(text[k])
    ensures Parse(text) == []
  {
    SplitWhole(text, ',');
    assert Trim(text) == "";
    assert TrimAll([text]) == [""];
    assert Seqs.Filter([""], NonEmpty) == [];
  }
}
