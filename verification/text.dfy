/** String operations of the JavaScript runtime that the client relies on:
    `trim`, `toLowerCase`, `split`, `indexOf`, `includes`, line splitting and
    string truthiness. */
module Text {
  import opened Wrappers

  /** The WhiteSpace and LineTerminator code points of ECMAScript, which
      `String.prototype.trim` removes from both ends. */
  predicate IsSpace(c: char) {
    || c == '\t' || c == '\n' || c == '\U{B}' || c == '\U{C}' || c == '\r' || c == ' '
    || c == '\U{A0}' || c == '\U{1680}' || ('\U{2000}' <= c <= '\U{200A}')
    || c == '\U{2028}' || c == '\U{2029}' || c == '\U{202F}' || c == '\U{205F}'
    || c == '\U{3000}' || c == '\U{FEFF}'
  }

  function TrimStart(s: string): string {
    if s != [] && IsSpace(s[0]) then TrimStart(s[1..]) else s
  }

  function TrimEnd(s: string): string {
    if s != [] && IsSpace(s[|s| - 1]) then TrimEnd(s[..|s| - 1]) else s
  }

  /** `s.trim()`. */
  function Trim(s: string): string {
    TrimEnd(TrimStart(s))
  }

  lemma {:induction false} TrimStartSpec(s: string)
    ensures |TrimStart(s)| <= |s| && TrimStart(s) == s[|s| - |TrimStart(s)|..]
    ensures TrimStart(s) == [] || !IsSpace(TrimStart(s)[0])
    ensures forall i :: 0 <= i < |s| - |TrimStart(s)| ==> IsSpace(s[i])
  {
    if s != [] && IsSpace(s[0]) {
      var t := TrimStart(s[1..]);
      TrimStartSpec(s[1..]);
      assert TrimStart(s) == t;
      assert s[1..][|s| - 1 - |t|..] == s[|s| - |t|..];
      forall i | 0 <= i < |s| - |t|
        ensures IsSpace(s[i])
      {
        if i > 0 {
          assert s[i] == s[1..][i - 1];
        }
      }
    }
  }

  lemma {:induction false} TrimEndSpec(s: string)
    ensures |TrimEnd(s)| <= |s| && TrimEnd(s) == s[..|TrimEnd(s)|]
    ensures TrimEnd(s) == [] || !IsSpace(TrimEnd(s)[|TrimEnd(s)| - 1])
    ensures forall i :: |TrimEnd(s)| <= i < |s| ==> IsSpace(s[i])
  {
    if s != [] && IsSpace(s[|s| - 1]) {
      TrimEndSpec(s[..|s| - 1]);
    }
  }

  /** What `trim` leaves: a piece of the input with no white space at either
      end, empty exactly when the input is nothing but white space. */
  lemma TrimSpec(s: string)
    ensures Trim(s) == [] || (!IsSpace(Trim(s)[0]) && !IsSpace(Trim(s)[|Trim(s)| - 1]))
    ensures Trim(s) == [] <==> forall i :: 0 <= i < |s| ==> IsSpace(s[i])
  {
    var t := TrimStart(s);
    TrimStartSpec(s);
    TrimEndSpec(t);
    var r := TrimEnd(t);
    if r != [] {
      var k := |s| - |t|;
      assert t[0] == s[k];
      assert r[0] == t[0];
      assert !IsSpace(s[k]);
    } else {
      assert t == [];
    }
  }

  /** An input with no white space at its ends is left as it is. */
  lemma TrimUnspaced(s: string)
    requires s != [] && !IsSpace(s[0]) && !IsSpace(s[|s| - 1])
    ensures Trim(s) == s
  {
  }

  /** Trimming twice is trimming once, and trimming adds no character. */
  lemma TrimTwice(s: string, c: char)
    ensures Trim(Trim(s)) == Trim(s)
    ensures c !in s ==> c !in Trim(s)
  {
    TrimSpec(s);
    if Trim(s) != [] {
      TrimUnspaced(Trim(s));
    }
    var t := TrimStart(s);
    TrimStartSpec(s);
    TrimEndSpec(t);
    if c !in s {
      assert c !in t by { assert forall k :: 0 <= k < |t| ==> t[k] == s[|s| - |t| + k]; }
      assert forall k :: 0 <= k < |TrimEnd(t)| ==> TrimEnd(t)[k] == t[k];
    }
  }

  /** `toLowerCase` on one code point, for ASCII, Latin-1, Latin Extended-A
      except U+0130 (which JavaScript lowers to two code units), the two
      Vietnamese horned letters and the Vietnamese block U+1EA0-U+1EF9;
      every other code point is left as it is. */
  function LowerChar(c: char): char {
    if 'A' <= c <= 'Z' then (c as int + 32) as char
    else if '\U{C0}' <= c <= '\U{DE}' && c != '\U{D7}' then (c as int + 32) as char
    else if ('\U{100}' <= c <= '\U{137}' || '\U{14A}' <= c <= '\U{177}') && c != '\U{130}' && c as int % 2 == 0 then (c as int + 1) as char
    else if ('\U{139}' <= c <= '\U{148}' || '\U{179}' <= c <= '\U{17E}') && c as int % 2 == 1 then (c as int + 1) as char
    else if c == '\U{178}' then '\U{FF}'
    else if c == '\U{1A0}' || c == '\U{1AF}' then (c as int + 1) as char
    else if '\U{1EA0}' <= c <= '\U{1EF8}' && c as int % 2 == 0 then (c as int + 1) as char
    else c
  }

  function ToLower(s: string): (r: string)
    ensures |r| == |s|
  {
    seq(|s|, i requires 0 <= i < |s| => LowerChar(s[i]))
  }

  /** Lower-casing is idempotent on every code point, and it leaves white
      space and commas where they were. */
  lemma LowerCharKeeps(c: char)
    ensures LowerChar(LowerChar(c)) == LowerChar(c)
    ensures IsSpace(LowerChar(c)) <==> IsSpace(c)
    ensures LowerChar(c) == ',' <==> c == ','
  {
  }

  /** A lower-cased string is its own lower case. */
  lemma LowerTwice(s: string)
    ensures ToLower(ToLower(s)) == ToLower(s)
  {
    forall i | 0 <= i < |s| ensures ToLower(ToLower(s))[i] == ToLower(s)[i] {
      LowerCharKeeps(s[i]);
    }
  }

  /** `s.split(sep)` for a one-character separator. */
  function Split(s: string, sep: char): (parts: seq<string>)
    ensures |parts| >= 1
    ensures forall k :: 0 <= k < |parts| ==> sep !in parts[k]
    decreases |s|
  {
    if s == [] then [""]
    else
      var rest := Split(s[1..], sep);
      if s[0] == sep then [""] + rest
      else [[s[0]] + rest[0]] + rest[1..]
  }

  /** `parts.join(sep)`, the inverse of Split. */
  function Join(parts: seq<string>, sep: char): string
    requires |parts| >= 1
  {
    if |parts| == 1 then parts[0] else parts[0] + [sep] + Join(parts[1..], sep)
  }

  /** Splitting and joining again gives back the original string. */
  lemma {:induction false} JoinSplit(s: string, sep: char)
    ensures Join(Split(s, sep), sep) == s
    decreases |s|
  {
    if s != [] {
      var rest := Split(s[1..], sep);
      JoinSplit(s[1..], sep);
      if s[0] == sep {
        assert Split(s, sep) == [""] + rest;
        assert ([""] + rest)[1..] == rest;
      } else {
        var parts := Split(s, sep);
        assert parts == [[s[0]] + rest[0]] + rest[1..];
        if |rest| == 1 {
          assert parts == [[s[0]] + rest[0]];
        } else {
          assert parts[1..] == rest[1..];
          assert Join(rest, sep) == rest[0] + [sep] + Join(rest[1..], sep);
        }
      }
    }
  }

  /** A string without the separator is one piece. */
  lemma {:induction false} SplitNoSeparator(s: string, sep: char)
    requires sep !in s
    ensures Split(s, sep) == [s]
    decreases |s|
  {
    if s != [] {
      assert sep !in s[1..] by { assert forall c :: c in s[1..] ==> c in s; }
      SplitNoSeparator(s[1..], sep);
      assert [s[0]] + s[1..] == s;
    }
  }

  /** The first separator ends the first piece; the rest is split on its own. */
  lemma {:induction false} SplitAtFirst(a: string, sep: char, b: string)
    requires sep !in a
    ensures Split(a + [sep] + b, sep) == [a] + Split(b, sep)
    decreases |a|
  {
    if a == [] {
      assert a + [sep] + b == [sep] + b;
      assert ([sep] + b)[1..] == b;
    } else {
      var s := a + [sep] + b;
      assert s[1..] == a[1..] + [sep] + b;
      assert sep !in a[1..] by { assert forall c :: c in a[1..] ==> c in a; }
      SplitAtFirst(a[1..], sep, b);
      assert [a[0]] + a[1..] == a;
    }
  }

  /** The text before the first `c`, or all of `s` when it holds none. */
  function UpTo(s: string, c: char): (r: string)
    ensures c !in r && r <= s
    ensures c !in s ==> r == s
  {
    if s == [] || s[0] == c then [] else [s[0]] + UpTo(s[1..], c)
  }

  /** The text after the first `c`, or None when `s` holds none. */
  function After(s: string, c: char): (r: Option<string>)
    ensures r.None? <==> c !in s
  {
    if s == [] then None
    else if s[0] == c then Some(s[1..])
    else
      var r := After(s[1..], c);
      assert c in s <==> c in s[1..];
      r
  }

  /** A string holding `c` is the text before its first `c`, that `c`, and
      the text after it. */
  lemma {:induction false} UpToAfter(s: string, c: char)
    requires c in s
    ensures s == UpTo(s, c) + [c] + After(s, c).value
  {
    if s[0] != c {
      assert c in s[1..] by { assert s == [s[0]] + s[1..]; }
      UpToAfter(s[1..], c);
    }
  }

  /** The first part of a split is the text before the first separator. */
  lemma {:induction false} SplitHead(s: string, sep: char)
    ensures Split(s, sep)[0] == UpTo(s, sep)
  {
    if s != [] && s[0] != sep {
      SplitHead(s[1..], sep);
    }
  }

  /** The second part of a split, when there is one, is the first part of
      what follows the first separator. */
  lemma {:induction false} SplitSecond(s: string, sep: char)
    ensures |Split(s, sep)| >= 2 <==> After(s, sep).Some?
    ensures |Split(s, sep)| >= 2 ==> Split(s, sep)[1] == UpTo(After(s, sep).value, sep)
  {
    if s != [] {
      if s[0] == sep {
        SplitHead(s[1..], sep);
      } else {
        SplitSecond(s[1..], sep);
      }
    }
  }

  /** Drops the carriage return of a CRLF line ending. */
  function DropCarriageReturn(line: string): string {
    if EndsWithCr(line) then line[..|line| - 1] else line
  }

  /** `text.split(/\r?\n/)`: split at every line feed, a carriage return just
      before a line feed belonging to the separator. */
  function SplitLines(text: string): (lines: seq<string>)
    ensures |lines| >= 1
    ensures |lines| == |Split(text, '\n')|
    ensures forall k :: 0 <= k < |lines| ==> '\n' !in lines[k]
    ensures lines[|lines| - 1] == Split(text, '\n')[|lines| - 1]
    ensures forall k :: 0 <= k < |lines| - 1 ==>
              Split(text, '\n')[k] == lines[k] + (if EndsWithCr(Split(text, '\n')[k]) then "\r" else "")
  {
    var parts := Split(text, '\n');
    var lines := seq(|parts|, i requires 0 <= i < |parts| =>
      if i < |parts| - 1 then DropCarriageReturn(parts[i]) else parts[i]);
    assert forall k :: 0 <= k < |lines| ==> '\n' !in lines[k] by {
      forall k | 0 <= k < |lines| ensures '\n' !in lines[k] {
        assert forall j :: 0 <= j < |lines[k]| ==> lines[k][j] == parts[k][j];
      }
    }
    lines
  }

  predicate EndsWithCr(line: string) {
    |line| > 0 && line[|line| - 1] == '\r'
  }

  /** `.filter(Boolean)` on strings: drops the empty ones, keeping order. */
  function NonEmpty(xs: seq<string>): (ys: seq<string>)
    ensures |ys| <= |xs|
    ensures forall k :: 0 <= k < |ys| ==> ys[k] != ""
    ensures forall s :: s in ys <==> s in xs && s != ""
  {
    if xs == [] then []
    else if xs[0] == "" then NonEmpty(xs[1..])
    else [xs[0]] + NonEmpty(xs[1..])
  }

  /** Filtering works element by element and keeps the order: the filter of
      a concatenation is the concatenation of the filters, and a single
      element is kept exactly when it is non-empty. */
  lemma {:induction false} NonEmptyAppend(a: seq<string>, b: seq<string>)
    ensures NonEmpty(a + b) == NonEmpty(a) + NonEmpty(b)
    ensures forall x :: NonEmpty([x]) == if x == "" then [] else [x]
    decreases |a|
  {
    if a != [] {
      assert (a + b)[1..] == a[1..] + b;
      NonEmptyAppend(a[1..], b);
    } else {
      assert a + b == b;
    }
    forall x ensures NonEmpty([x]) == if x == "" then [] else [x] {
      assert [x][1..] == [];
    }
  }

  /** The first element `.filter(Boolean)` keeps is the first non-empty one,
      and nothing is kept exactly when every element is empty. */
  lemma {:induction false} NonEmptyFirst(xs: seq<string>)
    ensures NonEmpty(xs) == [] <==> forall k :: 0 <= k < |xs| ==> xs[k] == ""
    ensures NonEmpty(xs) != [] ==> exists j :: 0 <= j < |xs| && NonEmpty(xs)[0] == xs[j]
                                     && forall k :: 0 <= k < j ==> xs[k] == ""
  {
    if xs != [] {
      NonEmptyFirst(xs[1..]);
      if xs[0] == "" && NonEmpty(xs[1..]) != [] {
        var j :| 0 <= j < |xs[1..]| && NonEmpty(xs[1..])[0] == xs[1..][j]
                 && forall k :: 0 <= k < j ==> xs[1..][k] == "";
        assert forall k :: 0 <= k < j + 1 ==> xs[k] == "" by {
          forall k | 0 <= k < j + 1 ensures xs[k] == "" {
            if k > 0 { assert xs[k] == xs[1..][k - 1]; }
          }
        }
      }
      if NonEmpty(xs) == [] {
        forall k | 0 <= k < |xs| ensures xs[k] == "" {
          if k > 0 { assert xs[k] == xs[1..][k - 1]; }
        }
      }
    }
  }

  /** `xs.indexOf(x)`: the first position holding x, or -1. */
  function IndexOf(xs: seq<string>, x: string): (i: int)
    ensures -1 <= i < |xs|
    ensures i == -1 <==> x !in xs
    ensures i >= 0 ==> xs[i] == x && x !in xs[..i]
  {
    if xs == [] then -1
    else if xs[0] == x then 0
    else
      var j := IndexOf(xs[1..], x);
      assert j >= 0 ==> xs[..j + 1] == [xs[0]] + xs[1..][..j];
      if j == -1 then -1 else j + 1
  }

  /** `s.includes(t)`: t occurs somewhere in s. */
  predicate Contains(s: string, t: string)
    decreases |s|
  {
    t <= s || (s != [] && Contains(s[1..], t))
  }

  /** JavaScript truthiness of an optional string: defined and non-empty. */
  predicate Truthy(v: Option<string>) {
    v.Some? && v.value != ""
  }

  /** `a || b` where b is a plain string. */
  function OrElse(a: Option<string>, b: string): (r: string)
    ensures Truthy(a) ==> r == a.value
    ensures !Truthy(a) ==> r == b
    ensures r == b || Some(r) == a
    ensures r != "" <==> Truthy(a) || b != ""
  {
    if Truthy(a) then a.value else b
  }
}
