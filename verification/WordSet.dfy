/** `BTreeSet<String>`: strings listed in ascending order, each once. */
module WordSet {
  import opened Text

  /** Rust's order on strings. */
  predicate Less(a: string, b: string) {
    b != "" && (a == "" || a[0] < b[0] || (a[0] == b[0] && Less(a[1..], b[1..])))
  }

  predicate Ascending(ws: seq<string>) {
    forall i, j :: 0 <= i < j < |ws| ==> Less(ws[i], ws[j])
  }

  function Insert(ws: seq<string>, w: string): (r: seq<string>)
    ensures forall x :: x in r <==> x in ws || x == w
    ensures Words(ws) && Word(w) ==> Words(r)
  {
    if ws == [] || Less(w, ws[0]) then [w] + ws
    else if ws[0] == w then ws
    else [ws[0]] + Insert(ws[1..], w)
  }

  /** `extend` */
  function Extend(ws: seq<string>, more: seq<string>): (r: seq<string>)
    ensures forall x :: x in r <==> x in ws || x in more
    ensures Words(ws) && Words(more) ==> Words(r)
    decreases |more|
  {
    if more == [] then ws else Extend(Insert(ws, more[0]), more[1..])
  }

  lemma {:induction false} LessIsTransitive(a: string, b: string, c: string)
    requires Less(a, b) && Less(b, c)
    ensures Less(a, c)
  {
    if a != "" && a[0] == b[0] == c[0] {
      LessIsTransitive(a[1..], b[1..], c[1..]);
    }
  }

  lemma {:induction false} LessIsTotal(a: string, b: string)
    ensures a == b || Less(a, b) || Less(b, a)
  {
    if a != "" && b != "" && a[0] == b[0] {
      LessIsTotal(a[1..], b[1..]);
      assert a == [a[0]] + a[1..] && b == [b[0]] + b[1..];
    }
  }

  lemma {:induction false} LessIsStrict(a: string)
    ensures !Less(a, a)
  {
    if a != "" {
      LessIsStrict(a[1..]);
    }
  }

  lemma Prepend(w: string, ws: seq<string>)
    requires Ascending(ws) && forall x :: x in ws ==> Less(w, x)
    ensures Ascending([w] + ws)
  {
  }

  lemma {:induction false} InsertKeepsOrder(ws: seq<string>, w: string)
    requires Ascending(ws)
    ensures Ascending(Insert(ws, w))
  {
    if ws == [] {
    } else if Less(w, ws[0]) {
      forall x | x in ws
        ensures Less(w, x)
      {
        if x != ws[0] {
          LessIsTransitive(w, ws[0], x);
        }
      }
      Prepend(w, ws);
    } else if ws[0] != w {
      LessIsTotal(w, ws[0]);
      InsertKeepsOrder(ws[1..], w);
      Prepend(ws[0], Insert(ws[1..], w));
    }
  }

  lemma {:induction false} ExtendKeepsOrder(ws: seq<string>, more: seq<string>)
    requires Ascending(ws)
    ensures Ascending(Extend(ws, more))
    decreases |more|
  {
    if more != [] {
      InsertKeepsOrder(ws, more[0]);
      ExtendKeepsOrder(Insert(ws, more[0]), more[1..]);
    }
  }

  /** An ascending listing is determined by what it lists. */
  lemma {:induction false} OneListing(a: seq<string>, b: seq<string>)
    requires Ascending(a) && Ascending(b) && forall x :: x in a <==> x in b
    ensures a == b
  {
    if b != [] {
      assert b[0] in a;
    }
    if a != [] {
      assert a[0] in b;
      SameLeast(a, b);
      forall x
        ensures x in a[1..] <==> x in b[1..]
      {
        LessIsStrict(a[0]);
        assert x in a <==> x in b;
      }
      OneListing(a[1..], b[1..]);
    }
  }

  lemma SameLeast(a: seq<string>, b: seq<string>)
    requires Ascending(a) && Ascending(b) && a != [] && b != [] && a[0] in b && b[0] in a
    ensures a[0] == b[0]
  {
    if a[0] != b[0] {
      LessIsTransitive(a[0], b[0], a[0]);
      LessIsStrict(a[0]);
    }
  }
}
