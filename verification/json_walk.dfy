/** The two walkers that refuse repeated names in JSON objects, over the tokens a decoder yields.

    Section 4 of RFC 8259 says names within an object should be unique, and section 2.3 of RFC 7493 requires it. */
module JsonWalk {
  import opened Wrappers

  /** Commas and colons are not tokens. A scalar is a literal name or a number, and `huge` says that it is a number
      outside the range of a 64-bit float. */
  datatype Token =
    | OpenObject
    | CloseObject
    | OpenArray
    | CloseArray
    | Text(text: string)
    | Scalar(literal: string, huge: bool)
  {
    predicate Closes() { CloseObject? || CloseArray? }
  }

  datatype Json =
    | JsonText(text: string)
    | JsonScalar(literal: string, huge: bool)
    | JsonArray(items: seq<Json>)
    | JsonObject(members: seq<Member>)

  datatype Member = Member(name: string, value: Json)

  // ---------------------------------------------------------------------------------------------
  // The reference: trees and their tokens

  function Tokens(t: Json): (r: seq<Token>)
    ensures r != [] && !r[0].Closes()
    decreases t
  {
    match t
    case JsonText(s) => [Text(s)]
    case JsonScalar(s, huge) => [Scalar(s, huge)]
    case JsonArray(items) => [OpenArray] + ItemTokens(items) + [CloseArray]
    case JsonObject(members) => [OpenObject] + MemberTokens(members) + [CloseObject]
  }

  function ItemTokens(items: seq<Json>): seq<Token>
    decreases items
  {
    if items == [] then [] else Tokens(items[0]) + ItemTokens(items[1..])
  }

  function MemberTokens(members: seq<Member>): seq<Token>
    decreases members
  {
    if members == [] then [] else [Text(members[0].name)] + Tokens(members[0].value) + MemberTokens(members[1..])
  }

  predicate DistinctNames(members: seq<Member>) {
    forall i, j :: 0 <= i < j < |members| ==> members[i].name != members[j].name
  }

  /** No object at any level repeats a name. */
  predicate UniqueNames(t: Json)
    decreases t
  {
    match t
    case JsonText(_) => true
    case JsonScalar(_, _) => true
    case JsonArray(items) => forall i :: 0 <= i < |items| ==> UniqueNames(items[i])
    case JsonObject(members) =>
      DistinctNames(members) && forall i :: 0 <= i < |members| ==> UniqueNames(members[i].value)
  }

  /** No value is nested deeper than `depth` below this one. */
  predicate NestedWithin(t: Json, depth: int)
    decreases t
  {
    depth >= 0 &&
    match t
    case JsonText(_) => true
    case JsonScalar(_, _) => true
    case JsonArray(items) => forall i :: 0 <= i < |items| ==> NestedWithin(items[i], depth - 1)
    case JsonObject(members) => forall i :: 0 <= i < |members| ==> NestedWithin(members[i].value, depth - 1)
  }

  /** No number is outside the range of a 64-bit float. */
  predicate InRange(t: Json)
    decreases t
  {
    match t
    case JsonText(_) => true
    case JsonScalar(_, huge) => !huge
    case JsonArray(items) => forall i :: 0 <= i < |items| ==> InRange(items[i])
    case JsonObject(members) => forall i :: 0 <= i < |members| ==> InRange(members[i].value)
  }

  // ---------------------------------------------------------------------------------------------
  // The walk

  /** How many more levels may open, the numbers left as text; or no limit, the numbers read as floats. */
  datatype Budget = Unlimited | Levels(left: int) {
    predicate Spent() { Levels? && left < 0 }
    function Less(): Budget { if Levels? then Levels(left - 1) else Unlimited }
    predicate Reads(token: Token) { Unlimited? && token.Scalar? ==> !token.huge }
  }

  /** What a walk asks of a document besides its names. */
  predicate Admits(b: Budget, t: Json) { if b.Levels? then NestedWithin(t, b.left) else InRange(t) }

  /** What is left after one value, or nothing if the walk fails. */
  function Value(ts: seq<Token>, b: Budget): (r: Option<seq<Token>>)
    ensures r.Some? ==> |r.value| < |ts|
    decreases |ts|, 0
  {
    if b.Spent() || ts == [] then None
    else match ts[0]
      case Text(_) => Some(ts[1..])
      case Scalar(_, _) => if b.Reads(ts[0]) then Some(ts[1..]) else None
      case OpenArray => Items(ts[1..], b.Less())
      case OpenObject => Members(ts[1..], {}, b.Less())
      case _ => None
  }

  function Items(ts: seq<Token>, b: Budget): (r: Option<seq<Token>>)
    ensures r.Some? ==> |r.value| < |ts|
    decreases |ts|, 1
  {
    if ts == [] then None
    else if ts[0].Closes() then (if ts[0].CloseArray? then Some(ts[1..]) else None)
    else
      var rest := Value(ts, b);
      if rest.None? then None else Items(rest.value, b)
  }

  function Members(ts: seq<Token>, seen: set<string>, b: Budget): (r: Option<seq<Token>>)
    ensures r.Some? ==> |r.value| < |ts|
    decreases |ts|, 1
  {
    if ts == [] then None
    else if ts[0].Closes() then (if ts[0].CloseObject? then Some(ts[1..]) else None)
    else if !ts[0].Text? || ts[0].text in seen then None
    else
      var rest := Value(ts[1..], b);
      if rest.None? then None else Members(rest.value, seen + {ts[0].text}, b)
  }

  // ---------------------------------------------------------------------------------------------
  // Exactness

  /** What the walk asks of a tree. */
  predicate Good(t: Json, b: Budget)
    decreases t
  {
    !b.Spent() &&
    match t
    case JsonText(_) => true
    case JsonScalar(_, huge) => b.Levels? || !huge
    case JsonArray(items) => GoodItems(items, b.Less())
    case JsonObject(members) => GoodMembers(members, {}, b.Less())
  }

  predicate GoodItems(items: seq<Json>, b: Budget)
    decreases items
  {
    items == [] || (Good(items[0], b) && GoodItems(items[1..], b))
  }

  predicate GoodMembers(members: seq<Member>, seen: set<string>, b: Budget)
    decreases members
  {
    members == []
      || (members[0].name !in seen && Good(members[0].value, b)
          && GoodMembers(members[1..], seen + {members[0].name}, b))
  }

  /** On the tokens of a tree, whatever follows, the walk takes exactly that tree, or fails if it is not good. */
  lemma {:induction false} WalkTakesTree(t: Json, after: seq<Token>, b: Budget)
    ensures Value(Tokens(t) + after, b) == if Good(t, b) then Some(after) else None
    decreases t
  {
    var ts := Tokens(t) + after;
    match t {
      case JsonText(_) => assert ts[1..] == after;
      case JsonScalar(_, _) => assert ts[1..] == after;
      case JsonArray(items) =>
        assert ts[1..] == ItemTokens(items) + ([CloseArray] + after);
        WalkTakesItems(items, after, b.Less());
      case JsonObject(members) =>
        assert ts[1..] == MemberTokens(members) + ([CloseObject] + after);
        WalkTakesMembers(members, {}, after, b.Less());
    }
  }

  lemma {:induction false} WalkTakesItems(items: seq<Json>, after: seq<Token>, b: Budget)
    ensures Items(ItemTokens(items) + ([CloseArray] + after), b) == if GoodItems(items, b) then Some(after) else None
    decreases items
  {
    var end := [CloseArray] + after;
    if items == [] {
      assert ItemTokens(items) + end == end && end[1..] == after;
    } else {
      var rest := ItemTokens(items[1..]) + end;
      assert ItemTokens(items) + end == Tokens(items[0]) + rest;
      WalkTakesTree(items[0], rest, b);
      WalkTakesItems(items[1..], after, b);
    }
  }

  lemma HeadOf<T>(a: T, x: seq<T>, y: seq<T>, z: seq<T>)
    ensures var ts := [a] + x + y + z; ts[0] == a && ts[1..] == x + (y + z)
  {}

  lemma MemberTokensSplit(members: seq<Member>, end: seq<Token>)
    requires members != []
    ensures var ts := MemberTokens(members) + end;
            && ts != [] && ts[0] == Text(members[0].name)
            && ts[1..] == Tokens(members[0].value) + (MemberTokens(members[1..]) + end)
  {
    HeadOf(Text(members[0].name), Tokens(members[0].value), MemberTokens(members[1..]), end);
  }

  lemma {:induction false} WalkTakesMembers(members: seq<Member>, seen: set<string>, after: seq<Token>, b: Budget)
    ensures Members(MemberTokens(members) + ([CloseObject] + after), seen, b)
            == if GoodMembers(members, seen, b) then Some(after) else None
    decreases members
  {
    var end := [CloseObject] + after;
    if members == [] {
      assert MemberTokens(members) + end == end && end[1..] == after;
    } else {
      var rest := MemberTokens(members[1..]) + end;
      MemberTokensSplit(members, end);
      WalkTakesTree(members[0].value, rest, b);
      WalkTakesMembers(members[1..], seen + {members[0].name}, after, b);
    }
  }

  /** Whatever the walk takes is the tokens of a good tree. */
  lemma {:induction false} TakenIsTree(ts: seq<Token>, b: Budget) returns (t: Json)
    requires Value(ts, b).Some?
    ensures ts == Tokens(t) + Value(ts, b).value && Good(t, b)
    decreases |ts|, 0
  {
    match ts[0] {
      case Text(s) => t := JsonText(s);
      case Scalar(s, huge) => t := JsonScalar(s, huge);
      case OpenArray =>
        var items := TakenAreItems(ts[1..], b.Less());
        t := JsonArray(items);
        Enclosed(ts, ItemTokens(items), CloseArray, Value(ts, b).value);
      case OpenObject =>
        var members := TakenAreMembers(ts[1..], {}, b.Less());
        t := JsonObject(members);
        Enclosed(ts, MemberTokens(members), CloseObject, Value(ts, b).value);
    }
  }

  lemma Enclosed(ts: seq<Token>, inner: seq<Token>, close: Token, after: seq<Token>)
    requires ts != [] && ts[1..] == inner + [close] + after
    ensures ts == [ts[0]] + inner + [close] + after
  {
    assert ts == [ts[0]] + ts[1..];
  }

  lemma {:induction false} TakenAreItems(ts: seq<Token>, b: Budget) returns (items: seq<Json>)
    requires Items(ts, b).Some?
    ensures ts == ItemTokens(items) + [CloseArray] + Items(ts, b).value && GoodItems(items, b)
    decreases |ts|, 1
  {
    if ts[0].Closes() {
      items := [];
      assert ts == [ts[0]] + ts[1..];
    } else {
      var t := TakenIsTree(ts, b);
      var rest := TakenAreItems(Value(ts, b).value, b);
      items := [t] + rest;
      assert items[1..] == rest;
    }
  }

  lemma Regroup(ts: seq<Token>, name: string, value: seq<Token>, rest: seq<Token>, after: seq<Token>)
    requires ts != [] && ts[0] == Text(name) && ts[1..] == value + (rest + [CloseObject] + after)
    ensures ts == [Text(name)] + value + rest + [CloseObject] + after
  {
    assert ts == [ts[0]] + ts[1..];
  }

  lemma {:induction false} TakenAreMembers(ts: seq<Token>, seen: set<string>, b: Budget) returns (members: seq<Member>)
    requires Members(ts, seen, b).Some?
    ensures ts == MemberTokens(members) + [CloseObject] + Members(ts, seen, b).value && GoodMembers(members, seen, b)
    decreases |ts|, 1
  {
    if ts[0].Closes() {
      members := [];
      assert ts == [ts[0]] + ts[1..];
    } else {
      var name := ts[0].text;
      var t := TakenIsTree(ts[1..], b);
      var left := Value(ts[1..], b).value;
      var rest := TakenAreMembers(left, seen + {name}, b);
      members := [Member(name, t)] + rest;
      assert members[1..] == rest;
      Regroup(ts, name, Tokens(t), MemberTokens(rest), Members(left, seen + {name}, b).value);
    }
  }

  // What a good tree is

  lemma {:induction false} GoodIff(t: Json, b: Budget)
    ensures Good(t, b) <==> UniqueNames(t) && Admits(b, t)
    decreases t
  {
    match t {
      case JsonText(_) =>
      case JsonScalar(_, _) =>
      case JsonArray(items) => GoodItemsIff(items, b.Less());
      case JsonObject(members) => GoodMembersIff(members, {}, b.Less());
    }
  }

  lemma {:induction false} GoodItemsIff(items: seq<Json>, b: Budget)
    ensures GoodItems(items, b) <==>
            forall i :: 0 <= i < |items| ==> UniqueNames(items[i]) && Admits(b, items[i])
    decreases items
  {
    if items == [] {
    } else {
      GoodIff(items[0], b);
      GoodItemsIff(items[1..], b);
      assert items == [items[0]] + items[1..];
    }
  }

  predicate NotSeen(members: seq<Member>, seen: set<string>) {
    forall i :: 0 <= i < |members| ==> members[i].name !in seen
  }

  predicate EachFits(members: seq<Member>, b: Budget) {
    forall i :: 0 <= i < |members| ==> UniqueNames(members[i].value) && Admits(b, members[i].value)
  }

  lemma {:induction false} GoodMembersIff(members: seq<Member>, seen: set<string>, b: Budget)
    ensures GoodMembers(members, seen, b) <==> DistinctNames(members) && NotSeen(members, seen) && EachFits(members, b)
    decreases members
  {
    if members == [] {
    } else {
      GoodIff(members[0].value, b);
      GoodMembersIff(members[1..], seen + {members[0].name}, b);
      NamesSplit(members, seen);
      assert members == [members[0]] + members[1..];
    }
  }

  lemma NamesSplit(members: seq<Member>, seen: set<string>)
    requires members != []
    ensures DistinctNames(members) && NotSeen(members, seen)
            <==>
            && members[0].name !in seen
            && DistinctNames(members[1..])
            && NotSeen(members[1..], seen + {members[0].name})
  {
    var rest := members[1..];
    assert forall i :: 0 <= i < |rest| ==> rest[i] == members[i + 1];
    if members[0].name !in seen && DistinctNames(rest) && NotSeen(rest, seen + {members[0].name}) {
      forall i, j | 0 <= i < j < |members| ensures members[i].name != members[j].name {
        assert members[j] == rest[j - 1];
        if i > 0 { assert members[i] == rest[i - 1]; }
      }
      forall i | 0 <= i < |members| ensures members[i].name !in seen {
        if i > 0 { assert members[i] == rest[i - 1]; }
      }
    }
  }

  // ---------------------------------------------------------------------------------------------
  // The theorem

  /** A whole document: one value and nothing after it. */
  predicate Accepts(ts: seq<Token>, b: Budget) { Value(ts, b) == Some([]) }

  predicate Document(ts: seq<Token>, t: Json) { ts == Tokens(t) }

  /** The walk accepts exactly the token streams of documents with unique names at every level and, with a limit, no
      value nested deeper than that, or without one, no number outside the range of a float. */
  lemma AcceptsExactly(ts: seq<Token>, b: Budget)
    ensures Accepts(ts, b) <==> exists t :: Document(ts, t) && UniqueNames(t) && Admits(b, t)
  {
    if Accepts(ts, b) {
      var t := TakenIsTree(ts, b);
      GoodIff(t, b);
      assert Tokens(t) + [] == Tokens(t);
      assert Document(ts, t);
    }
    forall t | Document(ts, t) && UniqueNames(t) && Admits(b, t) ensures Accepts(ts, b) {
      GoodIff(t, b);
      WalkTakesTree(t, [], b);
      assert Tokens(t) + [] == ts;
    }
  }

  const MAX_DEPTH: int := 64

  /** The two walkers give different answers exactly on the documents with unique names that either nest deeper than
      the limit or hold a number no float can, but not both. */
  lemma WalkersDifferIff(t: Json)
    ensures Accepts(Tokens(t), Unlimited) <==> UniqueNames(t) && InRange(t)
    ensures Accepts(Tokens(t), Levels(MAX_DEPTH)) <==> UniqueNames(t) && NestedWithin(t, MAX_DEPTH)
    ensures Accepts(Tokens(t), Unlimited) != Accepts(Tokens(t), Levels(MAX_DEPTH))
            <==> UniqueNames(t) && InRange(t) != NestedWithin(t, MAX_DEPTH)
  {
    assert Tokens(t) + [] == Tokens(t);
    WalkTakesTree(t, [], Unlimited);
    WalkTakesTree(t, [], Levels(MAX_DEPTH));
    GoodIff(t, Unlimited);
    GoodIff(t, Levels(MAX_DEPTH));
  }

  /** A token stream is the stream of one document only, and a document's tokens say where it ends. */
  lemma {:induction false} DocumentsAreUnambiguous(t: Json, after: seq<Token>, u: Json, after': seq<Token>)
    requires Tokens(t) + after == Tokens(u) + after'
    ensures t == u && after == after'
    decreases t
  {
    var ts := Tokens(t) + after;
    assert ts[0] == Tokens(t)[0] && ts[0] == Tokens(u)[0];
    match t {
      case JsonText(_) => assert ts[1..] == after && ts[1..] == after';
      case JsonScalar(_, _) => assert ts[1..] == after && ts[1..] == after';
      case JsonArray(items) =>
        assert ts[1..] == ItemTokens(items) + ([CloseArray] + after);
        assert ts[1..] == ItemTokens(u.items) + ([CloseArray] + after');
        ItemsAreUnambiguous(items, after, u.items, after');
      case JsonObject(members) =>
        assert ts[1..] == MemberTokens(members) + ([CloseObject] + after);
        assert ts[1..] == MemberTokens(u.members) + ([CloseObject] + after');
        MembersAreUnambiguous(members, after, u.members, after');
    }
  }

  lemma {:induction false} ItemsAreUnambiguous(x: seq<Json>, after: seq<Token>, y: seq<Json>, after': seq<Token>)
    requires ItemTokens(x) + ([CloseArray] + after) == ItemTokens(y) + ([CloseArray] + after')
    ensures x == y && after == after'
    decreases x
  {
    var end, end' := [CloseArray] + after, [CloseArray] + after';
    var ts := ItemTokens(x) + end;
    assert x == [] <==> ts[0].CloseArray?;
    assert y == [] <==> ts[0].CloseArray?;
    if x == [] {
      assert ts == end && ts == end';
      assert end[1..] == after && end'[1..] == after';
    } else {
      assert ts == Tokens(x[0]) + (ItemTokens(x[1..]) + end);
      assert ts == Tokens(y[0]) + (ItemTokens(y[1..]) + end');
      DocumentsAreUnambiguous(x[0], ItemTokens(x[1..]) + end, y[0], ItemTokens(y[1..]) + end');
      ItemsAreUnambiguous(x[1..], after, y[1..], after');
      assert x == [x[0]] + x[1..] && y == [y[0]] + y[1..];
    }
  }

  lemma {:induction false} MembersAreUnambiguous(x: seq<Member>, after: seq<Token>, y: seq<Member>, after': seq<Token>)
    requires MemberTokens(x) + ([CloseObject] + after) == MemberTokens(y) + ([CloseObject] + after')
    ensures x == y && after == after'
    decreases x
  {
    var end, end' := [CloseObject] + after, [CloseObject] + after';
    var ts := MemberTokens(x) + end;
    assert x == [] <==> ts[0].CloseObject?;
    assert y == [] <==> ts[0].CloseObject?;
    if x == [] {
      assert ts == end && ts == end';
      assert end[1..] == after && end'[1..] == after';
    } else {
      MemberTokensSplit(x, end);
      MemberTokensSplit(y, end');
      DocumentsAreUnambiguous(x[0].value, MemberTokens(x[1..]) + end, y[0].value, MemberTokens(y[1..]) + end');
      MembersAreUnambiguous(x[1..], after, y[1..], after');
      assert x == [x[0]] + x[1..] && y == [y[0]] + y[1..];
    }
  }

  // ---------------------------------------------------------------------------------------------
  // The walkers, over a shared decoder

  datatype Read = Got(token: Token) | OutOfRange | End

  class Decoder {
    const tokens: seq<Token>
    const useNumber: bool
    var pos: nat

    constructor (tokens: seq<Token>, useNumber: bool)
      ensures this.tokens == tokens && this.useNumber == useNumber && pos == 0
    {
      this.tokens, this.useNumber := tokens, useNumber;
      pos := 0;
    }

    ghost function Rest(): seq<Token>
      reads this
    {
      if pos <= |tokens| then tokens[pos..] else []
    }

    /** The next token, or the end of input. A number is read as a float unless it is left as text, which fails outside
        the range of floats. */
    method Next() returns (read: Read)
      requires pos <= |tokens|
      modifies this
      ensures pos <= |tokens| && |Rest()| <= |old(Rest())|
      ensures if old(Rest()) == [] then read.End?
              else if !useNumber && old(Rest())[0].Scalar? && old(Rest())[0].huge then read.OutOfRange?
              else read == Got(old(Rest())[0]) && Rest() == old(Rest())[1..]
      ensures read.End? ==> Rest() == []
    {
      if pos == |tokens| {
        return End;
      }
      if !useNumber && tokens[pos].Scalar? && tokens[pos].huge {
        return OutOfRange;
      }
      read := Got(tokens[pos]);
      pos := pos + 1;
    }

    /** Whether the array or object being read has another element. */
    method More() returns (more: bool)
      requires pos <= |tokens|
      ensures more == (Rest() != [] && !Rest()[0].Closes())
    {
      more := pos < |tokens| && !tokens[pos].Closes();
    }
  }

  /** What a walk from `ts` that stops with `rest` and `ok` may report. */
  ghost predicate Walked(result: Option<seq<Token>>, ok: bool, rest: seq<Token>) {
    if ok then result == Some(rest) else result.None?
  }

  /** One value of `rejectDuplicateKeys`, at `depth`. */
  method WalkLimited(d: Decoder, depth: nat) returns (ok: bool)
    requires d.pos <= |d.tokens| && d.useNumber
    modifies d
    ensures d.pos <= |d.tokens| && |d.Rest()| <= |old(d.Rest())|
    ensures Walked(Value(old(d.Rest()), Levels(MAX_DEPTH - depth)), ok, d.Rest())
    decreases |d.Rest()|, 0
  {
    if depth > MAX_DEPTH {
      return false;
    }
    var read := d.Next();
    if !read.Got? {
      return false;
    }
    match read.token {
      case Text(_) => ok := true;
      case Scalar(_, _) => ok := true;
      case OpenObject => ok := WalkLimitedObject(d, depth + 1);
      case OpenArray => ok := WalkLimitedArray(d, depth + 1);
      case _ => ok := false;
    }
  }

  /** The members of an object, their values at `depth`. */
  method WalkLimitedObject(d: Decoder, depth: nat) returns (ok: bool)
    requires d.pos <= |d.tokens| && d.useNumber
    modifies d
    ensures d.pos <= |d.tokens| && |d.Rest()| <= |old(d.Rest())|
    ensures Walked(Members(old(d.Rest()), {}, Levels(MAX_DEPTH - depth)), ok, d.Rest())
    decreases |d.Rest()|, 1
  {
    var seen: set<string> := {};
    var more := d.More();
    while more
      invariant d.pos <= |d.tokens| && |d.Rest()| <= |old(d.Rest())|
      invariant more == (d.Rest() != [] && !d.Rest()[0].Closes())
      invariant Members(old(d.Rest()), {}, Levels(MAX_DEPTH - depth))
                == Members(d.Rest(), seen, Levels(MAX_DEPTH - depth))
      decreases |d.Rest()|
    {
      var key := d.Next();
      if !key.Got? || !key.token.Text? || key.token.text in seen {
        return false;
      }
      seen := seen + {key.token.text};
      ok := WalkLimited(d, depth);
      if !ok {
        return false;
      }
      more := d.More();
    }
    var close := d.Next();
    ok := close == Got(CloseObject);
  }

  /** The items of an array, at `depth`. */
  method WalkLimitedArray(d: Decoder, depth: nat) returns (ok: bool)
    requires d.pos <= |d.tokens| && d.useNumber
    modifies d
    ensures d.pos <= |d.tokens| && |d.Rest()| <= |old(d.Rest())|
    ensures Walked(Items(old(d.Rest()), Levels(MAX_DEPTH - depth)), ok, d.Rest())
    decreases |d.Rest()|, 1
  {
    var more := d.More();
    while more
      invariant d.pos <= |d.tokens| && |d.Rest()| <= |old(d.Rest())|
      invariant more == (d.Rest() != [] && !d.Rest()[0].Closes())
      invariant Items(old(d.Rest()), Levels(MAX_DEPTH - depth)) == Items(d.Rest(), Levels(MAX_DEPTH - depth))
      decreases |d.Rest()|
    {
      ok := WalkLimited(d, depth);
      if !ok {
        return false;
      }
      more := d.More();
    }
    var close := d.Next();
    ok := close == Got(CloseArray);
  }

  /** One value of `RejectDuplicateFields`. */
  method WalkUnlimited(d: Decoder) returns (ok: bool)
    requires d.pos <= |d.tokens| && !d.useNumber
    modifies d
    ensures d.pos <= |d.tokens| && |d.Rest()| <= |old(d.Rest())|
    ensures Walked(Value(old(d.Rest()), Unlimited), ok, d.Rest())
    decreases |d.Rest()|, 0
  {
    var read := d.Next();
    if !read.Got? {
      return false;
    }
    match read.token {
      case Text(_) => ok := true;
      case Scalar(_, _) => ok := true;
      case OpenObject => ok := WalkUnlimitedObject(d);
      case OpenArray => ok := WalkUnlimitedArray(d);
      case _ => ok := false;
    }
  }

  method WalkUnlimitedObject(d: Decoder) returns (ok: bool)
    requires d.pos <= |d.tokens| && !d.useNumber
    modifies d
    ensures d.pos <= |d.tokens| && |d.Rest()| <= |old(d.Rest())|
    ensures Walked(Members(old(d.Rest()), {}, Unlimited), ok, d.Rest())
    decreases |d.Rest()|, 1
  {
    var seen: set<string> := {};
    var more := d.More();
    while more
      invariant d.pos <= |d.tokens| && |d.Rest()| <= |old(d.Rest())|
      invariant more == (d.Rest() != [] && !d.Rest()[0].Closes())
      invariant Members(old(d.Rest()), {}, Unlimited) == Members(d.Rest(), seen, Unlimited)
      decreases |d.Rest()|
    {
      var key := d.Next();
      if !key.Got? || !key.token.Text? || key.token.text in seen {
        return false;
      }
      seen := seen + {key.token.text};
      ok := WalkUnlimited(d);
      if !ok {
        return false;
      }
      more := d.More();
    }
    var close := d.Next();
    ok := close == Got(CloseObject);
  }

  method WalkUnlimitedArray(d: Decoder) returns (ok: bool)
    requires d.pos <= |d.tokens| && !d.useNumber
    modifies d
    ensures d.pos <= |d.tokens| && |d.Rest()| <= |old(d.Rest())|
    ensures Walked(Items(old(d.Rest()), Unlimited), ok, d.Rest())
    decreases |d.Rest()|, 1
  {
    var more := d.More();
    while more
      invariant d.pos <= |d.tokens| && |d.Rest()| <= |old(d.Rest())|
      invariant more == (d.Rest() != [] && !d.Rest()[0].Closes())
      invariant Items(old(d.Rest()), Unlimited) == Items(d.Rest(), Unlimited)
      decreases |d.Rest()|
    {
      ok := WalkUnlimited(d);
      if !ok {
        return false;
      }
      more := d.More();
    }
    var close := d.Next();
    ok := close == Got(CloseArray);
  }

  method RejectDuplicateKeys(tokens: seq<Token>) returns (accepted: bool)
    ensures accepted <==> exists t :: Document(tokens, t) && UniqueNames(t) && NestedWithin(t, MAX_DEPTH)
  {
    AcceptsExactly(tokens, Levels(MAX_DEPTH));
    var d := new Decoder(tokens, true);
    assert d.Rest() == tokens;
    var ok := WalkLimited(d, 0);
    if !ok {
      return false;
    }
    var trailing := d.Next();
    accepted := trailing.End?;
  }

  method RejectDuplicateFields(tokens: seq<Token>) returns (accepted: bool)
    ensures accepted <==> exists t :: Document(tokens, t) && UniqueNames(t) && InRange(t)
  {
    AcceptsExactly(tokens, Unlimited);
    var d := new Decoder(tokens, false);
    assert d.Rest() == tokens;
    var ok := WalkUnlimited(d);
    if !ok {
      return false;
    }
    var trailing := d.Next();
    accepted := trailing.End?;
  }
}
