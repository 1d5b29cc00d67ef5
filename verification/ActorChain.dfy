/** The RFC 8693 `act` claim: nested actors as JSON and as claims. */
module ActorChain {
  import opened Prelude

  datatype Json =
    | Null
    | Bool(b: bool)
    | Num(n: int)
    | Str(s: string)
    | Arr(items: seq<Json>)
    | Obj(members: map<string, Json>)
  {
    function AsStr(): Option<string> {
      if Str? then Some(s) else None
    }

    function Get(key: string): Option<Json> {
      if Obj? && key in members then Some(members[key]) else None
    }
  }

  datatype ActClaim = ActClaim(sub: string, iss: Option<string>, act: Option<ActClaim>)

  const MAX_DEPTH := 10

  /** `None` stands for the `invalid_request` error. */
  function ParseAt(value: Json, depth: nat): (r: Option<ActClaim>)
    ensures depth > MAX_DEPTH ==> r.None?
    decreases MAX_DEPTH + 1 - depth
  {
    if depth > MAX_DEPTH || !value.Obj? then None
    else
      var sub := value.Get("sub");
      if sub.None? || !sub.value.Str? || sub.value.s == "" then None
      else
        var iss := if value.Get("iss").Some? then value.Get("iss").value.AsStr() else None;
        var nested := value.Get("act");
        if nested.None? then Some(ActClaim(sub.value.s, iss, None))
        else
          var prior := ParseAt(nested.value, depth + 1);
          if prior.None? then None else Some(ActClaim(sub.value.s, iss, prior))
  }

  function Parse(value: Json): Option<ActClaim> {
    ParseAt(value, 1)
  }

  function BuildAct(actor: string, prior: Option<ActClaim>): ActClaim {
    ActClaim(actor, None, prior)
  }

  /** The claim as serde writes it: absent options are left out. */
  function Serialise(c: ActClaim): Json {
    Obj(map["sub" := Str(c.sub)]
        + (if c.iss.Some? then map["iss" := Str(c.iss.value)] else map[])
        + (if c.act.Some? then map["act" := Serialise(c.act.value)] else map[]))
  }

  function Levels(c: ActClaim): (n: nat)
    ensures n >= 1
  {
    1 + if c.act.Some? then Levels(c.act.value) else 0
  }

  predicate NamesEveryActor(c: ActClaim) {
    c.sub != "" && (c.act.Some? ==> NamesEveryActor(c.act.value))
  }

  // ---------------------------------------------------------------- proofs

  lemma {:induction false} ParseSerialisedAt(c: ActClaim, depth: nat)
    requires 1 <= depth
    ensures ParseAt(Serialise(c), depth) ==
      if depth + Levels(c) - 1 <= MAX_DEPTH && NamesEveryActor(c) then Some(c) else None
    decreases c
  {
    if c.act.Some? {
      ParseSerialisedAt(c.act.value, depth + 1);
      assert Serialise(c).Get("act") == Some(Serialise(c.act.value));
    } else {
      assert Serialise(c).Get("act") == None;
    }
    assert Serialise(c).Get("sub") == Some(Str(c.sub));
    assert Serialise(c).Get("iss") == if c.iss.Some? then Some(Str(c.iss.value)) else None;
  }

  /** Parsing undoes serialising exactly for chains of at most ten named actors, and refuses the others. */
  lemma ParseSerialised(c: ActClaim)
    ensures Parse(Serialise(c)) == if Levels(c) <= MAX_DEPTH && NamesEveryActor(c) then Some(c) else None
  {
    ParseSerialisedAt(c, 1);
  }

  /** The JSON value says exactly what the claim says, and whatever else it likes. */
  ghost predicate Denotes(value: Json, c: ActClaim)
    decreases c
  {
    && value.Obj? && "sub" in value.members && value.members["sub"] == Str(c.sub) && c.sub != ""
    && c.iss == (if "iss" in value.members && value.members["iss"].Str? then Some(value.members["iss"].s) else None)
    && (c.act.Some? <==> "act" in value.members) && (c.act.Some? ==> Denotes(value.members["act"], c.act.value))
  }

  lemma {:induction false} ParseAtExactlyWhen(value: Json, depth: nat, c: ActClaim)
    requires 1 <= depth
    ensures ParseAt(value, depth) == Some(c) <==> Denotes(value, c) && depth + Levels(c) - 1 <= MAX_DEPTH
    decreases c
  {
    if c.act.Some? && value.Obj? && "act" in value.members {
      ParseAtExactlyWhen(value.members["act"], depth + 1, c.act.value);
    }
  }

  /** The parser accepts exactly the values that denote a chain of at most ten actors, and gives that chain back. */
  lemma ParseExactlyWhen(value: Json, c: ActClaim)
    ensures Parse(value) == Some(c) <==> Denotes(value, c) && Levels(c) <= MAX_DEPTH
  {
    ParseAtExactlyWhen(value, 1, c);
  }

  lemma {:induction false} ParsedIsBounded(value: Json, depth: nat)
    requires 1 <= depth
    requires ParseAt(value, depth).Some?
    ensures var c := ParseAt(value, depth).value; depth + Levels(c) - 1 <= MAX_DEPTH && NamesEveryActor(c)
    decreases MAX_DEPTH + 1 - depth
  {
    if value.Get("act").Some? {
      ParsedIsBounded(value.Get("act").value, depth + 1);
    }
  }

  /** Sanitising a prior chain twice is sanitising it once, whatever JSON it came in as. */
  lemma SanitiseIdempotent(value: Json)
    requires Parse(value).Some?
    ensures Parse(Serialise(Parse(value).value)) == Parse(value)
  {
    ParsedIsBounded(value, 1);
    ParseSerialised(Parse(value).value);
  }

  /** A minted chain names the actor first and at most eleven actors in all. */
  lemma MintedChainIsBounded(actor: string, prior: Option<Json>)
    requires prior.Some? ==> Parse(prior.value).Some?
    ensures var act := BuildAct(actor, if prior.Some? then Parse(prior.value) else None);
      && Levels(act) <= MAX_DEPTH + 1
      && (actor != "" ==> NamesEveryActor(act))
  {
    if prior.Some? {
      ParsedIsBounded(prior.value, 1);
    }
  }
}
