/** Whitespace, words and scope strings, as Rust's `str` methods see them. */
module Text {

  /** The Unicode `White_Space` property, which `trim` and `split_whitespace` use. */
  predicate IsSpace(c: char) {
    var u := c as int;
    || 0x09 <= u <= 0x0D || u == 0x20 || u == 0x85 || u == 0xA0 || u == 0x1680
    || 0x2000 <= u <= 0x200A || u == 0x2028 || u == 0x2029 || u == 0x202F || u == 0x205F || u == 0x3000
  }

  /** `s.trim().is_empty()` */
  predicate Blank(s: string) {
    forall i :: 0 <= i < |s| ==> IsSpace(s[i])
  }

  predicate Word(w: string) {
    w != "" && forall i :: 0 <= i < |w| ==> !IsSpace(w[i])
  }

  predicate Words(ws: seq<string>) {
    forall i :: 0 <= i < |ws| ==> Word(ws[i])
  }

  function TrimStart(s: string): (t: string)
    ensures t != "" ==> !IsSpace(t[0])
    ensures t == "" <==> Blank(s)
  {
    if s == "" || !IsSpace(s[0]) then s else TrimStart(s[1..])
  }

  function TrimEnd(s: string): (t: string)
    ensures t <= s
    ensures t != "" ==> !IsSpace(t[|t| - 1])
    ensures t == "" <==> Blank(s)
  {
    if s == "" || !IsSpace(s[|s| - 1]) then s else TrimEnd(s[..|s| - 1])
  }

  /** `s.trim()` */
  function Trim(s: string): (t: string)
    ensures t == "" <==> Blank(s)
    ensures t != "" ==> !IsSpace(t[0]) && !IsSpace(t[|t| - 1])
  {
    TrimEnd(TrimStart(s))
  }

  /** Length of the word that `s` starts with. */
  function WordLength(s: string): (n: nat)
    ensures n <= |s|
    ensures forall i :: 0 <= i < n ==> !IsSpace(s[i])
    ensures n < |s| ==> IsSpace(s[n])
  {
    if s == "" || IsSpace(s[0]) then 0 else 1 + WordLength(s[1..])
  }

  /** `s.split_whitespace()` */
  function Split(s: string): (ws: seq<string>)
    ensures Words(ws)
    decreases |s|
  {
    if s == "" then []
    else if IsSpace(s[0]) then Split(s[1..])
    else
      var n := WordLength(s);
      [s[..n]] + Split(s[n..])
  }

  /** `ws.join(" ")` */
  function Join(ws: seq<string>): string {
    if |ws| == 0 then "" else if |ws| == 1 then ws[0] else ws[0] + " " + Join(ws[1..])
  }

  lemma {:induction false} WordLengthAt(w: string, rest: string)
    requires Word(w)
    requires rest == "" || IsSpace(rest[0])
    ensures WordLength(w + rest) == |w|
  {
    assert forall i :: 0 <= i < |w| ==> (w + rest)[i] == w[i];
    assert rest != "" ==> (w + rest)[|w|] == rest[0];
  }

  /** Splitting undoes joining: the scope string of a list of words is that list. */
  lemma {:induction false} SplitJoin(ws: seq<string>)
    requires Words(ws)
    ensures Split(Join(ws)) == ws
  {
    if |ws| == 1 {
      WordLengthAt(ws[0], "");
      assert ws[0] + "" == ws[0];
    } else if |ws| > 1 {
      var rest := " " + Join(ws[1..]);
      assert Join(ws) == ws[0] + rest;
      WordLengthAt(ws[0], rest);
      assert (ws[0] + rest)[0] == ws[0][0];
      assert (ws[0] + rest)[..|ws[0]|] == ws[0] && (ws[0] + rest)[|ws[0]|..] == rest;
      assert rest[1..] == Join(ws[1..]);
      SplitJoin(ws[1..]);
    }
  }

  /** Words do not run across whitespace. */
  lemma {:induction false} SplitAt(s: string, rest: string)
    requires rest == "" || IsSpace(rest[0])
    ensures Split(s + rest) == Split(s) + Split(rest)
    decreases |s|
  {
    if s == "" {
      assert s + rest == rest;
    } else if IsSpace(s[0]) {
      assert (s + rest)[1..] == s[1..] + rest;
      SplitAt(s[1..], rest);
    } else {
      var n := WordLength(s);
      assert s + rest == s[..n] + (s[n..] + rest);
      WordLengthAt(s[..n], s[n..] + rest);
      assert (s + rest)[..n] == s[..n] && (s + rest)[n..] == s[n..] + rest;
      SplitAt(s[n..], rest);
    }
  }

  /** The words of a joined list are the words of its members, whatever whitespace the members hold. */
  lemma {:induction false} WordsOfJoined(ws: seq<string>, w: string)
    ensures w in Split(Join(ws)) <==> exists i :: 0 <= i < |ws| && w in Split(ws[i])
  {
    if |ws| > 1 {
      var rest := " " + Join(ws[1..]);
      assert Join(ws) == ws[0] + rest && rest[1..] == Join(ws[1..]);
      SplitAt(ws[0], rest);
      WordsOfJoined(ws[1..], w);
      if i :| 0 <= i < |ws| && w in Split(ws[i]) {
        assert i > 0 ==> ws[1..][i - 1] == ws[i];
      }
    }
  }

  lemma {:induction false} TrimStartExactly(s: string)
    ensures exists a :: Blank(a) && s == a + TrimStart(s)
  {
    if s == "" || !IsSpace(s[0]) {
      assert Blank("") && s == "" + TrimStart(s);
    } else {
      TrimStartExactly(s[1..]);
      var a :| Blank(a) && s[1..] == a + TrimStart(s[1..]);
      assert Blank([s[0]] + a) && s == ([s[0]] + a) + TrimStart(s);
    }
  }

  lemma {:induction false} TrimEndExactly(s: string)
    ensures exists b :: Blank(b) && s == TrimEnd(s) + b
  {
    if s == "" || !IsSpace(s[|s| - 1]) {
      assert Blank("") && s == TrimEnd(s) + "";
    } else {
      var front, last := s[..|s| - 1], s[|s| - 1];
      TrimEndExactly(front);
      var b :| Blank(b) && front == TrimEnd(front) + b;
      assert Blank(b + [last]) && s == TrimEnd(s) + (b + [last]);
    }
  }

  /** Trimming takes away whitespace at the two ends and nothing else. */
  lemma TrimExactly(s: string)
    ensures exists a, b :: Blank(a) && Blank(b) && s == a + Trim(s) + b
  {
    TrimStartExactly(s);
    TrimEndExactly(TrimStart(s));
    var a :| Blank(a) && s == a + TrimStart(s);
    var b :| Blank(b) && TrimStart(s) == Trim(s) + b;
    assert s == a + Trim(s) + b;
  }

  lemma {:induction false} SplitTrimStart(s: string)
    ensures Split(TrimStart(s)) == Split(s)
  {
    if s != "" && IsSpace(s[0]) {
      SplitTrimStart(s[1..]);
    }
  }

  lemma {:induction false} SplitTrimEnd(s: string)
    ensures Split(TrimEnd(s)) == Split(s)
  {
    if s != "" && IsSpace(s[|s| - 1]) {
      var front, last := s[..|s| - 1], s[|s| - 1..];
      assert s == front + last && last[1..] == "";
      SplitAt(front, last);
      SplitTrimEnd(front);
    }
  }

  /** Trimming keeps the words. */
  lemma SplitTrim(s: string)
    ensures Split(Trim(s)) == Split(s)
  {
    SplitTrimStart(s);
    SplitTrimEnd(TrimStart(s));
  }

  /** A string is blank exactly when it has no words. */
  lemma {:induction false} BlankHasNoWords(s: string)
    ensures Blank(s) <==> Split(s) == []
    decreases |s|
  {
    if s != "" && IsSpace(s[0]) {
      BlankHasNoWords(s[1..]);
      assert Blank(s) <==> Blank(s[1..]) by {
        if Blank(s[1..]) {
          assert forall i :: 0 < i < |s| ==> s[i] == s[1..][i - 1];
        }
      }
    }
  }
}
