/** Scope downscoping of `sts-core`. */
module Scopes {
  import opened Prelude
  import opened Text

  function Intersect(left: seq<string>, right: seq<string>): (ws: seq<string>)
    ensures Words(left) ==> Words(ws)
  {
    if left == [] then []
    else
      var rest := Intersect(left[1..], right);
      if left[0] in right then [left[0]] + rest else rest
  }

  /** The words that remain, before they are joined. */
  function Grant(asked: seq<string>, allowed: seq<string>, subject: Option<seq<string>>, boundRequired: bool): (ws: seq<string>)
    ensures Words(asked) ==> Words(ws)
  {
    var first := Intersect(asked, allowed);
    if subject.None? then first
    else
      var both := Intersect(allowed, subject.value);
      if boundRequired || both != [] then Intersect(first, both) else first
  }

  function Asked(requested: Option<string>): seq<string> {
    Split(if requested.Some? then requested.value else "")
  }

  function SubjectWords(subject: Option<string>): Option<seq<string>> {
    if subject.Some? then Some(Split(subject.value)) else None
  }

  /** `None` stands for the `invalid_scope` error. */
  function Downscope(requested: Option<string>, target: string, subject: Option<string>, boundRequired: bool): Option<string> {
    var result := Grant(Asked(requested), Split(target), SubjectWords(subject), boundRequired);
    if result == [] then None else Some(Join(result))
  }

  // ---------------------------------------------------------------- specification

  predicate Subsequence(a: seq<string>, b: seq<string>) {
    a == [] || (b != [] && (if a[0] == b[0] then Subsequence(a[1..], b[1..]) else Subsequence(a, b[1..])))
  }

  /** The subject's own scopes bind when strictness is configured or when they meet the target's. */
  ghost predicate SubjectBinds(allowed: seq<string>, subject: Option<seq<string>>, boundRequired: bool) {
    subject.Some? && (boundRequired || exists w :: w in allowed && w in subject.value)
  }

  ghost predicate Permitted(w: string, allowed: seq<string>, subject: Option<seq<string>>, boundRequired: bool) {
    w in allowed && (SubjectBinds(allowed, subject, boundRequired) ==> w in subject.value)
  }

  /** `ws` is `asked` with exactly the impermissible words struck out, in the same order and multiplicity. */
  ghost predicate StrikesOut(ws: seq<string>, asked: seq<string>, allowed: seq<string>, subject: Option<seq<string>>, boundRequired: bool) {
    && Subsequence(ws, asked)
    && forall w :: multiset(ws)[w] == if Permitted(w, allowed, subject, boundRequired) then multiset(asked)[w] else 0
  }

  // ---------------------------------------------------------------- proofs

  lemma {:induction false} IntersectMeaning(left: seq<string>, right: seq<string>)
    ensures forall w :: multiset(Intersect(left, right))[w] == if w in right then multiset(left)[w] else 0
    ensures forall w :: w in Intersect(left, right) <==> w in left && w in right
    ensures Subsequence(Intersect(left, right), left)
  {
    if left != [] {
      IntersectMeaning(left[1..], right);
      assert left == [left[0]] + left[1..];
      var rest := Intersect(left[1..], right);
      if left[0] !in right && rest != [] {
        assert rest[0] in rest;
      }
    }
  }

  lemma {:induction false} SubsequenceTail(a: seq<string>, b: seq<string>)
    requires a != [] && Subsequence(a, b)
    ensures Subsequence(a[1..], b)
    decreases |b|, 0
  {
    if a[0] != b[0] {
      SubsequenceTail(a, b[1..]);
    }
    SubsequenceSkip(a[1..], b[1..], b[0]);
    assert [b[0]] + b[1..] == b;
  }

  lemma {:induction false} SubsequenceSkip(a: seq<string>, b: seq<string>, x: string)
    requires Subsequence(a, b)
    ensures Subsequence(a, [x] + b)
    decreases |b|, 1
  {
    assert ([x] + b)[1..] == b;
    if a != [] && a[0] == x {
      SubsequenceTail(a, b);
    }
  }

  lemma {:induction false} SubsequenceTransitive(a: seq<string>, b: seq<string>, c: seq<string>)
    requires Subsequence(a, b) && Subsequence(b, c)
    ensures Subsequence(a, c)
    decreases |c|
  {
    if a != [] {
      if b[0] == c[0] && a[0] == b[0] {
        SubsequenceTransitive(a[1..], b[1..], c[1..]);
      } else {
        SubsequenceTransitive(a, if b[0] == c[0] then b[1..] else b, c[1..]);
        SubsequenceSkip(a, c[1..], c[0]);
        assert [c[0]] + c[1..] == c;
      }
    }
  }

  lemma {:induction false} IntersectAbsorbs(left: seq<string>, right: seq<string>)
    requires forall w :: w in left ==> w in right
    ensures Intersect(left, right) == left
  {
    if left != [] {
      IntersectAbsorbs(left[1..], right);
    }
  }

  lemma SubjectBindsWhen(allowed: seq<string>, subject: Option<seq<string>>, boundRequired: bool)
    requires subject.Some?
    ensures SubjectBinds(allowed, subject, boundRequired) <==> boundRequired || Intersect(allowed, subject.value) != []
  {
    var both := Intersect(allowed, subject.value);
    IntersectMeaning(allowed, subject.value);
    if both != [] {
      assert both[0] in both;
    }
  }

  lemma GrantMeaning(asked: seq<string>, allowed: seq<string>, subject: Option<seq<string>>, boundRequired: bool)
    ensures StrikesOut(Grant(asked, allowed, subject, boundRequired), asked, allowed, subject, boundRequired)
  {
    var first := Intersect(asked, allowed);
    IntersectMeaning(asked, allowed);
    if subject.Some? {
      SubjectBindsWhen(allowed, subject, boundRequired);
      var both := Intersect(allowed, subject.value);
      IntersectMeaning(allowed, subject.value);
      IntersectMeaning(first, both);
      SubsequenceTransitive(Intersect(first, both), first, asked);
    }
  }

  lemma StruckOutEntirely(ws: seq<string>, asked: seq<string>, allowed: seq<string>, subject: Option<seq<string>>, boundRequired: bool)
    requires StrikesOut(ws, asked, allowed, subject, boundRequired)
    ensures ws == [] <==> forall w :: w in asked ==> !Permitted(w, allowed, subject, boundRequired)
  {
    if ws != [] {
      assert multiset(ws)[ws[0]] > 0;
      assert ws[0] in multiset(asked);
    }
  }

  /**
   * The granted string holds the requested words with exactly the impermissible ones struck out, in the requested
   * order and multiplicity; the request is refused exactly when nothing permissible was asked for.
   */
  lemma DownscopeMeaning(requested: Option<string>, target: string, subject: Option<string>, boundRequired: bool)
    ensures var r := Downscope(requested, target, subject, boundRequired);
      var asked, allowed, own := Asked(requested), Split(target), SubjectWords(subject);
      && (r.None? <==> forall w :: w in asked ==> !Permitted(w, allowed, own, boundRequired))
      && (r.Some? ==>
        && Split(r.value) != []
        && Join(Split(r.value)) == r.value
        && StrikesOut(Split(r.value), asked, allowed, own, boundRequired))
  {
    var result := Grant(Asked(requested), Split(target), SubjectWords(subject), boundRequired);
    GrantMeaning(Asked(requested), Split(target), SubjectWords(subject), boundRequired);
    StruckOutEntirely(result, Asked(requested), Split(target), SubjectWords(subject), boundRequired);
    SplitJoin(result);
  }

  /** Asking again for what was granted grants it again, unchanged. */
  lemma DownscopeIdempotent(requested: Option<string>, target: string, subject: Option<string>, boundRequired: bool)
    requires Downscope(requested, target, subject, boundRequired).Some?
    ensures var granted := Downscope(requested, target, subject, boundRequired);
      Downscope(granted, target, subject, boundRequired) == granted
  {
    var allowed, words := Split(target), SubjectWords(subject);
    var result := Grant(Asked(requested), allowed, words, boundRequired);
    SplitJoin(result);
    GrantMeaning(Asked(requested), allowed, words, boundRequired);
    assert forall w :: w in result ==> multiset(result)[w] > 0;
    IntersectAbsorbs(result, allowed);
    if words.Some? {
      SubjectBindsWhen(allowed, words, boundRequired);
      IntersectMeaning(allowed, words.value);
      if SubjectBinds(allowed, words, boundRequired) {
        IntersectAbsorbs(result, Intersect(allowed, words.value));
      }
    }
  }

  /** Turning strictness off changes no grant that strictness allows. */
  lemma StrictGrantIsLenientGrant(requested: Option<string>, target: string, subject: Option<string>)
    requires Downscope(requested, target, subject, true).Some?
    ensures Downscope(requested, target, subject, false) == Downscope(requested, target, subject, true)
  {
    if subject.Some? {
      var both := Intersect(Split(target), Split(subject.value));
      var first := Intersect(Asked(requested), Split(target));
      IntersectMeaning(first, both);
      var result := Intersect(first, both);
      assert result[0] in result;
    }
  }
}
