/** String operations of the JavaScript runtime that the core relies on:
    `String.prototype.trim`, `String.prototype.split(' ')`, and the binary
    ordering SQLite uses for `ORDER BY` on text columns. */
module Text {

  /** The characters `trim` removes: ECMAScript white space and line terminators. */
  predicate IsSpace(c: char) {
    || c == ' ' || c == '\t' || c == '\n' || c == '\r'
    || c == '\U{B}' || c == '\U{C}' || c == '\U{A0}' || c == '\U{1680}'
    || ('\U{2000}' <= c <= '\U{200A}')
    || c == '\U{2028}' || c == '\U{2029}' || c == '\U{202F}' || c == '\U{205F}'
    || c == '\U{3000}' || c == '\U{FEFF}'
  }

  /** A string that `trim` reduces to the empty string (JavaScript's `!s.trim()`). */
  predicate IsBlank(s: string) {
    forall i :: 0 <= i < |s| ==> IsSpace(s[i])
  }

  function TrimStart(s: string): string {
    if |s| > 0 && IsSpace(s[0]) then TrimStart(s[1..]) else s
  }

  function TrimEnd(s: string): string {
    if |s| > 0 && IsSpace(s[|s| - 1]) then TrimEnd(s[..|s| - 1]) else s
  }

  /** `s.trim()`. */
  function Trim(s: string): string {
    TrimEnd(TrimStart(s))
  }

  lemma {:induction false} TrimStartBounds(s: string) returns (i: nat)
    ensures i <= |s| && TrimStart(s) == s[i..]
    ensures forall k :: 0 <= k < i ==> IsSpace(s[k])
    ensures i < |s| ==> !IsSpace(s[i])
  {
    if |s| > 0 && IsSpace(s[0]) {
      var j := TrimStartBounds(s[1..]);
      i := j + 1;
      assert s[1..][j..] == s[i..];
      forall k | 0 <= k < i ensures IsSpace(s[k]) {
        if k > 0 { assert s[k] == s[1..][k - 1]; }
      }
    } else {
      i := 0;
    }
  }

  lemma {:induction false} TrimEndBounds(s: string) returns (j: nat)
    ensures j <= |s| && TrimEnd(s) == s[..j]
    ensures forall k :: j <= k < |s| ==> IsSpace(s[k])
    ensures 0 < j ==> !IsSpace(s[j - 1])
  {
    if |s| > 0 && IsSpace(s[|s| - 1]) {
      var s' := s[..|s| - 1];
      j := TrimEndBounds(s');
      assert s'[..j] == s[..j];
      forall k | j <= k < |s| ensures IsSpace(s[k]) {
        if k < |s| - 1 { assert s[k] == s'[k]; }
      }
    } else {
      j := |s|;
    }
  }

  /** `trim` removes a run of white space at each end and nothing else: the
      result is the slice `s[i..j]`, everything outside it is white space, and
      a non-empty result starts and ends with a non-space character. */
  lemma TrimBounds(s: string) returns (i: nat, j: nat)
    ensures i <= j <= |s| && Trim(s) == s[i..j]
    ensures forall k :: 0 <= k < i ==> IsSpace(s[k])
    ensures forall k :: j <= k < |s| ==> IsSpace(s[k])
    ensures i < j ==> !IsSpace(s[i]) && !IsSpace(s[j - 1])
  {
    i := TrimStartBounds(s);
    var t := s[i..];
    var e := TrimEndBounds(t);
    j := i + e;
    assert t[..e] == s[i..j];
    forall k | j <= k < |s| ensures IsSpace(s[k]) {
      assert s[k] == t[k - i];
    }
    if i < j {
      assert t[e - 1] == s[j - 1];
      if i < |s| && e == 0 { assert false; }
      assert t[0] == s[i];
    }
  }

  /** `!s.trim()` holds exactly for the strings made only of white space. */
  lemma TrimEmptyIffBlank(s: string)
    ensures Trim(s) == [] <==> IsBlank(s)
  {
    var i, j := TrimBounds(s);
    if Trim(s) == [] {
      forall k | 0 <= k < |s| ensures IsSpace(s[k]) {
        if i < |s| && !(k < i) {
          assert i == j;
          assert j <= k;
        }
      }
    } else {
      assert i < j && !IsSpace(s[i]);
    }
  }

  /** A trimmed string that is not empty has no white space at either end. */
  lemma TrimmedHasNoOuterSpace(s: string)
    ensures var t := Trim(s); t != [] ==> !IsSpace(t[0]) && !IsSpace(t[|t| - 1])
  {
    var i, j := TrimBounds(s);
  }

  /** `s.split(' ')`: the pieces between single spaces; an empty string and
      adjacent spaces give empty pieces, so there is always at least one. */
  function Split(s: string): (r: seq<string>)
    ensures |r| >= 1
  {
    if |s| == 0 then [""]
    else if s[0] == ' ' then [""] + Split(s[1..])
    else var rest := Split(s[1..]); [[s[0]] + rest[0]] + rest[1..]
  }

  /** `pieces.join(' ')`. */
  function Join(pieces: seq<string>): string
    requires |pieces| >= 1
  {
    if |pieces| == 1 then pieces[0] else pieces[0] + " " + Join(pieces[1..])
  }

  predicate NoSpace(s: string) {
    forall i :: 0 <= i < |s| ==> s[i] != ' '
  }

  /** Joining the pieces with single spaces gives back the string, and no piece holds a space. */
  lemma JoinSplit(s: string)
    ensures Join(Split(s)) == s
    ensures forall k :: 0 <= k < |Split(s)| ==> NoSpace(Split(s)[k])
  {
    JoinSplitRoundTrip(s);
    SplitPiecesHaveNoSpace(s);
  }

  lemma {:induction false} JoinSplitRoundTrip(s: string)
    ensures Join(Split(s)) == s
  {
    if |s| == 0 {
    } else if s[0] == ' ' {
      JoinSplitRoundTrip(s[1..]);
      var r := Split(s[1..]);
      assert Split(s) == [""] + r;
      assert Split(s)[1..] == r;
      assert s == "" + " " + s[1..];
    } else {
      JoinSplitRoundTrip(s[1..]);
      var rest := Split(s[1..]);
      var r := Split(s);
      assert r[0] == [s[0]] + rest[0];
      assert r[1..] == rest[1..];
      if |rest| == 1 {
        assert Join(r) == r[0] == [s[0]] + s[1..];
      } else {
        assert Join(rest) == rest[0] + " " + Join(rest[1..]);
        assert Join(r) == r[0] + " " + Join(rest[1..]);
        assert [s[0]] + s[1..] == s;
      }
    }
  }

  lemma {:induction false} SplitPiecesHaveNoSpace(s: string)
    ensures forall k :: 0 <= k < |Split(s)| ==> NoSpace(Split(s)[k])
  {
    if |s| == 0 {
    } else if s[0] == ' ' {
      SplitPiecesHaveNoSpace(s[1..]);
      var r := Split(s[1..]);
      assert Split(s) == [""] + r;
      forall k | 0 <= k < |Split(s)| ensures NoSpace(Split(s)[k]) {
        if k > 0 { assert Split(s)[k] == r[k - 1]; }
      }
    } else {
      SplitPiecesHaveNoSpace(s[1..]);
      var rest := Split(s[1..]);
      var r := Split(s);
      assert r[0] == [s[0]] + rest[0];
      assert r[1..] == rest[1..];
      forall k | 0 <= k < |r| ensures NoSpace(r[k]) {
        if k > 0 {
          assert r[k] == rest[k];
        } else {
          forall i | 0 <= i < |r[0]| ensures r[0][i] != ' ' {
            if i > 0 { assert r[0][i] == rest[0][i - 1]; }
          }
        }
      }
    }
  }

  /** A string without a space splits into itself alone. */
  lemma {:induction false} SplitWithoutSpace(s: string)
    requires NoSpace(s)
    ensures Split(s) == [s]
  {
    if |s| > 0 {
      SplitWithoutSpace(s[1..]);
      assert [s[0]] + s[1..] == s;
    }
  }

  /** Splitting pieces that hold no space, after joining them, gives the pieces back. */
  lemma {:induction false} SplitJoin(pieces: seq<string>)
    requires |pieces| >= 1
    requires forall k :: 0 <= k < |pieces| ==> NoSpace(pieces[k])
    ensures Split(Join(pieces)) == pieces
    decreases |pieces|, |pieces[0]|
  {
    var p := pieces[0];
    if |p| == 0 {
      if |pieces| == 1 {
      } else {
        SplitJoin(pieces[1..]);
        var s := Join(pieces);
        assert s == " " + Join(pieces[1..]);
        assert s[1..] == Join(pieces[1..]);
        assert pieces == [""] + pieces[1..];
      }
    } else {
      var tail := [p[1..]] + pieces[1..];
      forall k | 0 <= k < |tail| ensures NoSpace(tail[k]) {
        if k == 0 {
          forall i | 0 <= i < |p[1..]| ensures p[1..][i] != ' ' { assert p[1..][i] == p[i + 1]; }
        } else {
          assert tail[k] == pieces[k];
        }
      }
      SplitJoin(tail);
      var s := Join(pieces);
      assert p[0] != ' ';
      if |pieces| == 1 {
        assert s == p;
        assert Join(tail) == p[1..];
      } else {
        assert tail[1..] == pieces[1..];
        assert Join(tail) == p[1..] + " " + Join(pieces[1..]);
        assert s == p + " " + Join(pieces[1..]);
      }
      assert s[0] == p[0] && s[1..] == Join(tail);
      var rest := Split(s[1..]);
      assert rest == tail;
      assert Split(s) == [[p[0]] + p[1..]] + pieces[1..];
      assert [p[0]] + p[1..] == p;
      assert pieces == [p] + pieces[1..];
    }
  }

  /** `a <= b` in the code-point order of the characters, shorter prefix first:
      the order SQLite's default (binary) collation gives UTF-8 text. */
  predicate AtMost(a: string, b: string) {
    if |a| == 0 then true
    else if |b| == 0 then false
    else if a[0] != b[0] then a[0] < b[0]
    else AtMost(a[1..], b[1..])
  }

  lemma {:induction false} AtMostTotal(a: string, b: string)
    ensures AtMost(a, b) || AtMost(b, a)
  {
    if |a| > 0 && |b| > 0 && a[0] == b[0] { AtMostTotal(a[1..], b[1..]); }
  }

  lemma {:induction false} AtMostTransitive(a: string, b: string, c: string)
    requires AtMost(a, b) && AtMost(b, c)
    ensures AtMost(a, c)
  {
    if |a| > 0 && |b| > 0 && |c| > 0 && a[0] == b[0] && b[0] == c[0] {
      AtMostTransitive(a[1..], b[1..], c[1..]);
    }
  }
}
