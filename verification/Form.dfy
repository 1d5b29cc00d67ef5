/** The token-exchange form: what the server reads out of it and what the command line puts in. */
module Form {
  import opened Prelude
  import opened Text

  /** The twelve parameters that the token endpoint recognises. */
  datatype Key =
    | GrantType | SubjectToken | SubjectTokenType | ActorToken | ActorTokenType | Audience | Resource | Scope
    | RequestedTokenType | ClientId | ClientAssertion | ClientAssertionType

  datatype Item = Known(key: Key, value: string) | Unknown(name: string, value: string)

  /** `is_recognized_token_form_key`, for one decoded name-value pair. */
  function Classify(name: string, value: string): Item {
    if name == "grant_type" then Known(GrantType, value)
    else if name == "subject_token" then Known(SubjectToken, value)
    else if name == "subject_token_type" then Known(SubjectTokenType, value)
    else if name == "actor_token" then Known(ActorToken, value)
    else if name == "actor_token_type" then Known(ActorTokenType, value)
    else if name == "audience" then Known(Audience, value)
    else if name == "resource" then Known(Resource, value)
    else if name == "scope" then Known(Scope, value)
    else if name == "requested_token_type" then Known(RequestedTokenType, value)
    else if name == "client_id" then Known(ClientId, value)
    else if name == "client_assertion" then Known(ClientAssertion, value)
    else if name == "client_assertion_type" then Known(ClientAssertionType, value)
    else Unknown(name, value)
  }

  /** The parameter names on the wire, as the command line writes them. */
  function NameOf(key: Key): string {
    match key
    case GrantType => "grant_type"
    case SubjectToken => "subject_token"
    case SubjectTokenType => "subject_token_type"
    case ActorToken => "actor_token"
    case ActorTokenType => "actor_token_type"
    case Audience => "audience"
    case Resource => "resource"
    case Scope => "scope"
    case RequestedTokenType => "requested_token_type"
    case ClientId => "client_id"
    case ClientAssertion => "client_assertion"
    case ClientAssertionType => "client_assertion_type"
  }

  /** Each name is recognised as its own parameter. */
  lemma RecognisesName(key: Key, value: string)
    ensures Classify(NameOf(key), value) == Known(key, value)
  {
  }

  /** The server recognises exactly the twelve names, and each as its own parameter. */
  lemma RecognisesExactly(name: string, value: string, key: Key)
    ensures Classify(name, value) == Known(key, value) <==> name == NameOf(key)
    ensures Classify(name, value).Known? || Classify(name, value) == Unknown(name, value)
  {
    if name == NameOf(key) {
      RecognisesName(key, value);
    }
  }

  /** The non-empty values by key; an absent key stands for `None`. */
  datatype TokenForm = TokenForm(fields: map<Key, string>, emptyActorTokenSupplied: bool) {
    function Get(key: Key): Option<string> {
      if key in fields then Some(fields[key]) else None
    }
  }

  datatype FormError = InvalidRequest | InvalidTarget

  /** `assign_token_form_value` */
  function Assign(form: TokenForm, key: Key, value: string): TokenForm {
    if value != "" then form.(fields := form.fields[key := value])
    else TokenForm(form.fields - {key}, form.emptyActorTokenSupplied || key.ActorToken?)
  }

  predicate IsTarget(key: Key) {
    key.Audience? || key.Resource?
  }

  function Duplicate(key: Key): FormError {
    if IsTarget(key) then InvalidTarget else InvalidRequest
  }

  predicate HasKey(items: seq<Item>, key: Key) {
    exists i :: 0 <= i < |items| && items[i].Known? && items[i].key == key
  }

  /** Left to right: an unrecognised pair is skipped, the first repeated key is the error. */
  function Parse(items: seq<Item>): Result<TokenForm, FormError> {
    if items == [] then Ok(TokenForm(map[], false))
    else
      var rest, x := items[..|items| - 1], items[|items| - 1];
      var r := Parse(rest);
      if r.Err? || x.Unknown? then r
      else if HasKey(rest, x.key) then Err(Duplicate(x.key))
      else Ok(Assign(r.value, x.key, x.value))
  }

  function ClassifyAll(pairs: seq<(string, string)>): seq<Item> {
    seq(|pairs|, i requires 0 <= i < |pairs| => Classify(pairs[i].0, pairs[i].1))
  }

  /** `parse_token_form`, after percent-decoding. */
  method ParseTokenForm(pairs: seq<(string, string)>) returns (r: Result<TokenForm, FormError>)
    ensures r == Parse(ClassifyAll(pairs))
  {
    var seen: set<Key> := {};
    var form := TokenForm(map[], false);
    ghost var items := ClassifyAll(pairs);
    for i := 0 to |pairs|
      invariant Parse(items[..i]) == Ok(form)
      invariant forall key :: key in seen <==> HasKey(items[..i], key)
    {
      var x := Classify(pairs[i].0, pairs[i].1);
      assert items[..i + 1] == items[..i] + [x];
      ParseAppended(items[..i], x);
      HasKeyAppended(items[..i], x);
      if x.Known? {
        if x.key in seen {
          ErrorPersists(items, i + 1);
          return Err(Duplicate(x.key));
        }
        seen := seen + {x.key};
        form := Assign(form, x.key, x.value);
      }
    }
    assert items[..|items|] == items;
    return Ok(form);
  }

  lemma ParseAppended(rest: seq<Item>, x: Item)
    ensures Parse(rest + [x]) ==
      if Parse(rest).Err? || x.Unknown? then Parse(rest)
      else if HasKey(rest, x.key) then Err(Duplicate(x.key))
      else Ok(Assign(Parse(rest).value, x.key, x.value))
  {
    assert (rest + [x])[..|rest|] == rest;
  }

  lemma HasKeyAppended(items: seq<Item>, x: Item)
    ensures forall k :: HasKey(items + [x], k) <==> HasKey(items, k) || (x.Known? && k == x.key)
  {
    forall k
      ensures HasKey(items + [x], k) <==> HasKey(items, k) || (x.Known? && k == x.key)
    {
      if i :| 0 <= i < |items| && items[i].Known? && items[i].key == k {
        assert (items + [x])[i] == items[i];
      }
      if x.Known? && k == x.key {
        assert (items + [x])[|items|] == x;
      }
    }
  }

  lemma {:induction false} ErrorPersists(items: seq<Item>, n: nat)
    requires n <= |items| && Parse(items[..n]).Err?
    ensures Parse(items) == Parse(items[..n])
    decreases |items|
  {
    if n == |items| {
      assert items[..n] == items;
    } else {
      assert items[..|items| - 1][..n] == items[..n];
      ErrorPersists(items[..|items| - 1], n);
    }
  }

  // ---------------------------------------------------------------- the form as an unordered collection

  /** The key occurs at least twice. */
  ghost predicate Repeats(m: multiset<Item>, key: Key) {
    exists x, y :: x in m && y in m && x == Known(key, x.value) && y == Known(key, y.value) && (x != y || m[x] >= 2)
  }

  /** The form says of each key what the collection says, and nothing else. */
  ghost predicate Matches(form: TokenForm, m: multiset<Item>) {
    && (forall key, v :: form.Get(key) == Some(v) <==> v != "" && Known(key, v) in m)
    && (form.emptyActorTokenSupplied <==> Known(ActorToken, "") in m)
  }

  lemma MatchesOneForm(f: TokenForm, g: TokenForm, m: multiset<Item>)
    requires Matches(f, m) && Matches(g, m)
    ensures f == g
  {
    forall key
      ensures f.Get(key) == g.Get(key)
    {
      if f.Get(key).Some? {
        assert g.Get(key) == Some(f.Get(key).value);
      } else if g.Get(key).Some? {
        assert f.Get(key) == Some(g.Get(key).value);
      }
    }
    assert forall key :: key in f.fields <==> f.Get(key).Some?;
    assert forall key :: key in g.fields <==> g.Get(key).Some?;
    assert f.fields == g.fields;
  }

  lemma KeyIsThere(items: seq<Item>, key: Key)
    ensures HasKey(items, key) <==> exists v :: Known(key, v) in multiset(items)
  {
    if v :| Known(key, v) in multiset(items) {
      var i :| 0 <= i < |items| && items[i] == Known(key, v);
    }
    if i :| 0 <= i < |items| && items[i].Known? && items[i].key == key {
      assert items[i] in multiset(items) && items[i] == Known(key, items[i].value);
    }
  }

  lemma RepeatsGrows(m: multiset<Item>, x: Item, key: Key)
    requires Repeats(m, key) || (x.Known? && x.key == key && exists v :: Known(key, v) in m)
    ensures Repeats(m + multiset{x}, key)
  {
    var n := m + multiset{x};
    if Repeats(m, key) {
      var a, b :| a in m && b in m && a == Known(key, a.value) && b == Known(key, b.value) && (a != b || m[a] >= 2);
      assert a in n && b in n && (a != b || n[a] >= 2);
    } else {
      var v :| Known(key, v) in m;
      var y := Known(key, v);
      assert x in n && y in n && x == Known(key, x.value) && (x != y || n[x] >= 2);
    }
  }

  lemma RepeatsCameFrom(m: multiset<Item>, x: Item, key: Key)
    requires Repeats(m + multiset{x}, key) && !Repeats(m, key)
    ensures x.Known? && x.key == key && exists v :: Known(key, v) in m
  {
    var n := m + multiset{x};
    var a, b :| a in n && b in n && a == Known(key, a.value) && b == Known(key, b.value) && (a != b || n[a] >= 2);
    var other := if a == x then b else a;
    assert other == Known(key, other.value);
  }

  lemma MatchesAppended(form: TokenForm, m: multiset<Item>, x: Item)
    requires Matches(form, m) && x.Known? && forall v :: Known(x.key, v) !in m
    ensures Matches(Assign(form, x.key, x.value), m + multiset{x})
  {
    forall key, v
      ensures Assign(form, x.key, x.value).Get(key) == Some(v) <==> v != "" && Known(key, v) in m + multiset{x}
    {
      assert form.Get(key) == Some(v) <==> v != "" && Known(key, v) in m;
    }
  }

  /** What the verdict means: a form reports the collection, and an error names a kind of key that repeats. */
  ghost predicate Explains(r: Result<TokenForm, FormError>, m: multiset<Item>) {
    match r
    case Ok(form) => Matches(form, m) && forall key :: !Repeats(m, key)
    case Err(e) => exists key :: Repeats(m, key) && Duplicate(key) == e
  }

  lemma ExplainsAppended(rest: seq<Item>, x: Item)
    requires Explains(Parse(rest), multiset(rest))
    ensures Explains(Parse(rest + [x]), multiset(rest) + multiset{x})
  {
    var m, r := multiset(rest), Parse(rest);
    ParseAppended(rest, x);
    forall key
      ensures Repeats(m + multiset{x}, key) <==> Repeats(m, key) || (x.Known? && x.key == key && HasKey(rest, key))
    {
      KeyIsThere(rest, key);
      if Repeats(m, key) || (x.Known? && x.key == key && HasKey(rest, key)) {
        RepeatsGrows(m, x, key);
      } else if Repeats(m + multiset{x}, key) {
        RepeatsCameFrom(m, x, key);
      }
    }
    if r.Ok? && x.Known? && !HasKey(rest, x.key) {
      KeyIsThere(rest, x.key);
      MatchesAppended(r.value, m, x);
    }
  }

  lemma {:induction false} ParseMeaning(items: seq<Item>)
    ensures Explains(Parse(items), multiset(items))
  {
    if items != [] {
      var rest, x := items[..|items| - 1], items[|items| - 1];
      assert items == rest + [x];
      ParseMeaning(rest);
      ExplainsAppended(rest, x);
    }
  }

  // ---------------------------------------------------------------- order and strangers do not matter

  /** The same recognised pairs, in any order and with any others mixed in. */
  ghost predicate SameKnown(p: seq<Item>, q: seq<Item>) {
    forall x: Item :: x.Known? ==> multiset(p)[x] == multiset(q)[x]
  }

  lemma RepeatsAlike(p: seq<Item>, q: seq<Item>, key: Key)
    requires SameKnown(p, q) && Repeats(multiset(p), key)
    ensures Repeats(multiset(q), key)
  {
    var m := multiset(p);
    var x, y :| x in m && y in m && x == Known(key, x.value) && y == Known(key, y.value) && (x != y || m[x] >= 2);
    assert multiset(q)[x] == m[x] && multiset(q)[y] == m[y];
  }

  lemma MatchesAlike(form: TokenForm, p: seq<Item>, q: seq<Item>)
    requires SameKnown(p, q) && Matches(form, multiset(p))
    ensures Matches(form, multiset(q))
  {
    assert forall key, v :: multiset(p)[Known(key, v)] == multiset(q)[Known(key, v)];
  }

  /** The verdict and the form are unchanged by permuting the pairs and by adding unrecognised ones. */
  lemma ParseIgnoresOrder(p: seq<Item>, q: seq<Item>)
    requires SameKnown(p, q)
    ensures Parse(p).Ok? <==> Parse(q).Ok?
    ensures Parse(p).Ok? ==> Parse(p) == Parse(q)
  {
    ParseMeaning(p);
    ParseMeaning(q);
    if Parse(p).Err? {
      var key :| Repeats(multiset(p), key);
      RepeatsAlike(p, q, key);
    } else if Parse(q).Err? {
      var key :| Repeats(multiset(q), key);
      RepeatsAlike(q, p, key);
    } else {
      MatchesAlike(Parse(p).value, p, q);
      MatchesOneForm(Parse(p).value, Parse(q).value, multiset(q));
    }
  }

  lemma TakeOut(p: seq<Item>, x: Item) returns (q: seq<Item>)
    requires x in multiset(p)
    ensures multiset(q) + multiset{x} == multiset(p)
  {
    var i :| 0 <= i < |p| && p[i] == x;
    q := p[..i] + p[i + 1..];
    assert p == p[..i] + [x] + p[i + 1..];
  }

  lemma RepeatedAtOnce(x: Item, y: Item)
    requires x.Known? && y.Known? && x.key == y.key
    ensures Parse([x, y]) == Err(Duplicate(x.key))
  {
    assert [x, y][..1] == [x] && [x][..0] == [];
    assert !HasKey([], x.key);
    assert HasKey([x], x.key) by {
      assert [x][0] == x;
    }
    assert Parse([x]).Ok?;
  }

  lemma DecidedAtOnce(x: Item, y: Item, rest: seq<Item>)
    requires x.Known? && y.Known? && x.key == y.key
    ensures Parse([x, y] + rest) == Err(Duplicate(x.key))
  {
    assert ([x, y] + rest)[..2] == [x, y];
    RepeatedAtOnce(x, y);
    ErrorPersists([x, y] + rest, 2);
  }

  lemma TakeOutTwo(p: seq<Item>, x: Item, y: Item) returns (rest: seq<Item>)
    requires x in multiset(p) && y in multiset(p) && (x != y || multiset(p)[x] >= 2)
    ensures multiset([x, y] + rest) == multiset(p)
  {
    var q := TakeOut(p, x);
    assert y in multiset(q);
    rest := TakeOut(q, y);
    assert multiset([x, y] + rest) == multiset{x, y} + multiset(rest);
  }

  /** A repeated key can be brought to the front, where it decides the kind of error. */
  lemma BringForward(p: seq<Item>, key: Key) returns (q: seq<Item>)
    requires Repeats(multiset(p), key)
    ensures multiset(q) == multiset(p) && Parse(q) == Err(Duplicate(key))
  {
    var m := multiset(p);
    var x, y :| x in m && y in m && x == Known(key, x.value) && y == Known(key, y.value) && (x != y || m[x] >= 2);
    var rest := TakeOutTwo(p, x, y);
    DecidedAtOnce(x, y, rest);
    q := [x, y] + rest;
  }

  ghost predicate BothKindsRepeat(p: seq<Item>) {
    && (exists key :: IsTarget(key) && Repeats(multiset(p), key))
    && (exists key :: !IsTarget(key) && Repeats(multiset(p), key))
  }

  /** Even the kind of error is independent of order, exactly when target keys and other keys do not both repeat. */
  lemma ErrorKindIgnoresOrderExactlyWhen(p: seq<Item>)
    ensures (forall q :: SameKnown(p, q) ==> Parse(q) == Parse(p)) <==> !BothKindsRepeat(p)
  {
    if BothKindsRepeat(p) {
      var t :| IsTarget(t) && Repeats(multiset(p), t);
      var o :| !IsTarget(o) && Repeats(multiset(p), o);
      var q1 := BringForward(p, t);
      var q2 := BringForward(p, o);
      assert SameKnown(p, q1) && SameKnown(p, q2);
    } else {
      forall q | SameKnown(p, q)
        ensures Parse(q) == Parse(p)
      {
        KindAlike(p, q);
      }
    }
  }

  lemma KindAlike(p: seq<Item>, q: seq<Item>)
    requires SameKnown(p, q) && !BothKindsRepeat(p)
    ensures Parse(q) == Parse(p)
  {
    ParseIgnoresOrder(p, q);
    if Parse(p).Err? {
      ParseMeaning(p);
      ParseMeaning(q);
      var k :| Repeats(multiset(p), k) && Duplicate(k) == Parse(p).error;
      var j :| Repeats(multiset(q), j) && Duplicate(j) == Parse(q).error;
      RepeatsAlike(q, p, j);
    }
  }

  // ---------------------------------------------------------------- the command line's form

  datatype ExchangeArgs = ExchangeArgs(
    grantType: string, subjectToken: string, subjectTokenType: string,
    actorToken: Option<string>, actorTokenType: string,
    clientAssertion: Option<string>, clientAssertionType: string, clientId: Option<string>,
    audience: seq<string>, resource: seq<string>, scope: Option<string>, requestedTokenType: Option<string>)

  function Listed(v: Option<string>): seq<string> {
    if v.Some? then [v.value] else []
  }

  /** The values that the arguments give for each key. */
  function ValuesOf(args: ExchangeArgs, key: Key): seq<string> {
    match key
    case GrantType => [args.grantType]
    case SubjectToken => [args.subjectToken]
    case SubjectTokenType => [args.subjectTokenType]
    case ActorToken => Listed(args.actorToken)
    case ActorTokenType => if args.actorToken.Some? then [args.actorTokenType] else []
    case ClientAssertion => Listed(args.clientAssertion)
    case ClientAssertionType => if args.clientAssertion.Some? then [args.clientAssertionType] else []
    case ClientId => Listed(args.clientId)
    case Audience => args.audience
    case Resource => args.resource
    case Scope => Listed(args.scope)
    case RequestedTokenType => Listed(args.requestedTokenType)
  }

  type Values = Key -> seq<string>

  function ArgValues(args: ExchangeArgs): Values {
    key => ValuesOf(args, key)
  }

  /** Every key once. */
  ghost predicate Complete(keys: seq<Key>) {
    (forall key: Key :: key in keys) && forall i, j :: 0 <= i < j < |keys| ==> keys[i] != keys[j]
  }

  ghost predicate NoBlanks(values: Values) {
    forall key, i :: 0 <= i < |values(key)| ==> !Blank(values(key)[i])
  }

  function Tagged(key: Key, values: seq<string>): seq<Item> {
    seq(|values|, i requires 0 <= i < |values| => Known(key, values[i]))
  }

  function Pushed(values: Values, keys: seq<Key>): seq<Item> {
    if keys == [] then []
    else
      var key := keys[|keys| - 1];
      Pushed(values, keys[..|keys| - 1]) + Tagged(key, values(key))
  }

  /** The pairs as they are written: each parameter under its name. */
  function Wire(items: seq<Item>): seq<(string, string)> {
    seq(|items|, i requires 0 <= i < |items| => if items[i].Known? then (NameOf(items[i].key), items[i].value) else (items[i].name, items[i].value))
  }

  /** `push_form_param` for each value in turn; a blank value is the usage error, `None`. */
  method PushAll(form: seq<(string, string)>, key: Key, values: seq<string>) returns (r: Option<seq<(string, string)>>)
    ensures r.None? <==> exists i :: 0 <= i < |values| && Blank(values[i])
    ensures r.Some? ==> r.value == form + Wire(Tagged(key, values))
  {
    var out, name := form, NameOf(key);
    for i := 0 to |values|
      invariant out == form + Wire(Tagged(key, values[..i]))
      invariant forall j :: 0 <= j < i ==> !Blank(values[j])
    {
      if Blank(values[i]) {
        return None;
      }
      assert Wire(Tagged(key, values[..i + 1])) == Wire(Tagged(key, values[..i])) + [(name, values[i])];
      out := out + [(name, values[i])];
    }
    assert values[..|values|] == values;
    return Some(out);
  }

  lemma WireAppended(p: seq<Item>, q: seq<Item>)
    ensures Wire(p + q) == Wire(p) + Wire(q)
  {
  }

  method PushKeys(values: Values, keys: seq<Key>) returns (r: Option<seq<(string, string)>>)
    requires Complete(keys)
    ensures r.None? <==> !NoBlanks(values)
    ensures r.Some? ==> r.value == Wire(Pushed(values, keys))
  {
    var form: seq<(string, string)> := [];
    for i := 0 to |keys|
      invariant form == Wire(Pushed(values, keys[..i]))
      invariant forall j, n :: 0 <= j < i && 0 <= n < |values(keys[j])| ==> !Blank(values(keys[j])[n])
    {
      var next := PushAll(form, keys[i], values(keys[i]));
      if next.None? {
        return None;
      }
      assert keys[..i + 1][..i] == keys[..i];
      WireAppended(Pushed(values, keys[..i]), Tagged(keys[i], values(keys[i])));
      form := next.value;
    }
    assert keys[..|keys|] == keys;
    forall key, n | 0 <= n < |values(key)|
      ensures !Blank(values(key)[n])
    {
      assert key in keys;
      var j :| 0 <= j < |keys| && keys[j] == key;
    }
    return Some(form);
  }

  /** The order in which the command line pushes the parameters. */
  ghost predicate InOrder(keys: seq<Key>) {
    && |keys| == 12
    && keys[0].GrantType? && keys[1].SubjectToken? && keys[2].SubjectTokenType? && keys[3].ActorToken?
    && keys[4].ActorTokenType? && keys[5].ClientAssertion? && keys[6].ClientAssertionType? && keys[7].ClientId?
    && keys[8].Audience? && keys[9].Resource? && keys[10].Scope? && keys[11].RequestedTokenType?
  }

  /** The form-building part of `build_exchange_http_request`. */
  method BuildForm(args: ExchangeArgs) returns (r: Option<seq<(string, string)>>)
    ensures r.None? <==> !NoBlanks(ArgValues(args))
    ensures r.Some? ==> exists keys :: InOrder(keys) && Complete(keys) && r.value == Wire(Pushed(ArgValues(args), keys))
  {
    var keys := [
      GrantType, SubjectToken, SubjectTokenType, ActorToken, ActorTokenType, ClientAssertion, ClientAssertionType,
      ClientId, Audience, Resource, Scope, RequestedTokenType];
    assert InOrder(keys);
    ListsEveryKey(keys);
    r := PushKeys(ArgValues(args), keys);
  }

  lemma ListsEveryKey(keys: seq<Key>)
    requires InOrder(keys)
    ensures Complete(keys)
  {
    forall key: Key
      ensures key in keys
    {
      match key
      case GrantType => assert keys[0] == key;
      case SubjectToken => assert keys[1] == key;
      case SubjectTokenType => assert keys[2] == key;
      case ActorToken => assert keys[3] == key;
      case ActorTokenType => assert keys[4] == key;
      case ClientAssertion => assert keys[5] == key;
      case ClientAssertionType => assert keys[6] == key;
      case ClientId => assert keys[7] == key;
      case Audience => assert keys[8] == key;
      case Resource => assert keys[9] == key;
      case Scope => assert keys[10] == key;
      case RequestedTokenType => assert keys[11] == key;
    }
  }

  lemma {:induction false} CountTagged(tag: Key, values: seq<string>, key: Key, v: string)
    ensures multiset(Tagged(tag, values))[Known(key, v)] == if key == tag then multiset(values)[v] else 0
  {
    if values != [] {
      var front, last := values[..|values| - 1], values[|values| - 1];
      CountTagged(tag, front, key, v);
      assert values == front + [last];
      assert Tagged(tag, values) == Tagged(tag, front) + [Known(tag, last)];
    }
  }

  /** How often an item occurs in what was pushed. */
  lemma {:induction false} PushedCount(values: Values, keys: seq<Key>, key: Key, v: string)
    requires forall i, j :: 0 <= i < j < |keys| ==> keys[i] != keys[j]
    ensures multiset(Pushed(values, keys))[Known(key, v)] == if key in keys then multiset(values(key))[v] else 0
  {
    if keys != [] {
      var last, rest := keys[|keys| - 1], keys[..|keys| - 1];
      PushedCount(values, rest, key, v);
      CountTagged(last, values(last), key, v);
      assert keys == rest + [last];
    }
  }

  lemma TwoValues(values: seq<string>)
    requires |values| >= 2
    ensures values[0] in multiset(values) && values[1] in multiset(values)
    ensures values[0] == values[1] ==> multiset(values)[values[0]] >= 2
  {
    assert values == [values[0], values[1]] + values[2..];
  }

  lemma OneValue(values: seq<string>, v: string, w: string)
    requires |values| <= 1 && v in multiset(values) && w in multiset(values)
    ensures v == w && multiset(values)[v] == 1
  {
    assert values == [values[0]];
  }

  /** A pushed key repeats exactly when the arguments give it more than one value. */
  lemma PushedRepeats(values: Values, keys: seq<Key>, key: Key)
    requires Complete(keys)
    ensures Repeats(multiset(Pushed(values, keys)), key) <==> |values(key)| >= 2
  {
    var m := multiset(Pushed(values, keys));
    if |values(key)| >= 2 {
      var x, y := Known(key, values(key)[0]), Known(key, values(key)[1]);
      TwoValues(values(key));
      PushedCount(values, keys, key, x.value);
      PushedCount(values, keys, key, y.value);
      assert x in m && y in m && (x != y || m[x] >= 2);
    } else if Repeats(m, key) {
      var x, y :| x in m && y in m && x == Known(key, x.value) && y == Known(key, y.value) && (x != y || m[x] >= 2);
      PushedCount(values, keys, key, x.value);
      PushedCount(values, keys, key, y.value);
      OneValue(values(key), x.value, y.value);
    }
  }

  /** The form gives back what the arguments put in. */
  ghost predicate GivesBack(form: TokenForm, values: Values) {
    && (forall key :: form.Get(key) == if values(key) == [] then None else Some(values(key)[0]))
    && !form.emptyActorTokenSupplied
  }

  lemma FieldGivenBack(values: Values, keys: seq<Key>, form: TokenForm, key: Key)
    requires Complete(keys) && NoBlanks(values) && Matches(form, multiset(Pushed(values, keys)))
    ensures form.Get(key) == if values(key) == [] then None else Some(values(key)[0])
  {
    if values(key) != [] {
      PushedCount(values, keys, key, values(key)[0]);
      assert !Blank(values(key)[0]) && values(key)[0] in values(key);
    } else if form.Get(key).Some? {
      PushedCount(values, keys, key, form.Get(key).value);
    }
  }

  lemma ParsedGivesBack(values: Values, keys: seq<Key>, form: TokenForm)
    requires Complete(keys) && NoBlanks(values) && Matches(form, multiset(Pushed(values, keys)))
    ensures GivesBack(form, values)
  {
    forall key
      ensures form.Get(key) == if values(key) == [] then None else Some(values(key)[0])
    {
      FieldGivenBack(values, keys, form, key);
    }
    PushedCount(values, keys, ActorToken, "");
    assert Blank("");
    assert forall i :: 0 <= i < |values(ActorToken)| ==> !Blank(values(ActorToken)[i]);
  }

  ghost predicate OnlyTargetsRepeat(values: Values) {
    forall key :: !IsTarget(key) ==> |values(key)| <= 1
  }

  lemma ArgsRepeatOnlyTargets(args: ExchangeArgs)
    ensures OnlyTargetsRepeat(ArgValues(args))
  {
  }

  /** The server's verdict on what was pushed, from the number of target values alone. */
  lemma PushedVerdict(values: Values, keys: seq<Key>)
    requires Complete(keys) && OnlyTargetsRepeat(values)
    ensures var r := Parse(Pushed(values, keys));
      if |values(Audience)| <= 1 && |values(Resource)| <= 1 then r.Ok? else r == Err(InvalidTarget)
  {
    ParseMeaning(Pushed(values, keys));
    PushedRepeats(values, keys, Audience);
    PushedRepeats(values, keys, Resource);
    if Parse(Pushed(values, keys)).Err? {
      var key :| Repeats(multiset(Pushed(values, keys)), key) && Duplicate(key) == Parse(Pushed(values, keys)).error;
      PushedRepeats(values, keys, key);
    }
  }

  /** One target of each kind is read back with all the rest, more are refused. */
  ghost predicate ReadsBack(r: Result<TokenForm, FormError>, values: Values) {
    if |values(Audience)| <= 1 && |values(Resource)| <= 1 then r.Ok? && GivesBack(r.value, values) else r == Err(InvalidTarget)
  }

  lemma RoundTripOf(values: Values, keys: seq<Key>)
    requires Complete(keys) && NoBlanks(values) && OnlyTargetsRepeat(values)
    ensures ReadsBack(Parse(ClassifyAll(Wire(Pushed(values, keys)))), values)
  {
    PushedIsKnown(values, keys);
    ClassifyWire(Pushed(values, keys));
    PushedVerdict(values, keys);
    ParseMeaning(Pushed(values, keys));
    if Parse(Pushed(values, keys)).Ok? {
      ParsedGivesBack(values, keys, Parse(Pushed(values, keys)).value);
    }
  }

  ghost predicate AllKnown(items: seq<Item>) {
    forall i :: 0 <= i < |items| ==> items[i].Known?
  }

  lemma {:induction false} PushedIsKnown(values: Values, keys: seq<Key>)
    ensures AllKnown(Pushed(values, keys))
  {
    if keys != [] {
      PushedIsKnown(values, keys[..|keys| - 1]);
    }
  }

  /** The server recognises every parameter under the name it is written with. */
  lemma ClassifyWire(items: seq<Item>)
    requires AllKnown(items)
    ensures ClassifyAll(Wire(items)) == items
  {
    forall i | 0 <= i < |items|
      ensures ClassifyAll(Wire(items))[i] == items[i]
    {
      RecognisesName(items[i].key, items[i].value);
    }
  }

  /**
   * Round trip: from the pairs that the command line writes, the server reads back exactly the fields that it put in,
   * when there is at most one audience and at most one resource; otherwise it answers `invalid_target`.
   */
  lemma FormRoundTrip(args: ExchangeArgs, keys: seq<Key>)
    requires Complete(keys) && NoBlanks(ArgValues(args))
    ensures ReadsBack(Parse(ClassifyAll(Wire(Pushed(ArgValues(args), keys)))), ArgValues(args))
  {
    ArgsRepeatOnlyTargets(args);
    RoundTripOf(ArgValues(args), keys);
  }
}
