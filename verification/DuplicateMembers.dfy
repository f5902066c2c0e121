/**
  Rejecting repeated member names: the explicit-stack scan of incident bundles
  (internal/incidentbundle/bundle.go) and the recursive scan of control files
  (internal/killswitch/control.go), on the token stream of one JSON value.

  Section 4 of RFC 8259 asks for unique names within an object; both scans enforce it at every depth.
 */
module DuplicateMembers {
  import opened Wrappers

  datatype Json = Text(text: string) | Scalar | Array(items: Items) | Object(members: Members)

  datatype Items = NoItems | Item(item: Json, others: Items)

  datatype Members = NoMembers | Member(name: string, value: Json, rest: Members)

  /** What json.Decoder.Token yields; Atom is a number, a boolean or null. */
  datatype Token = OpenObject | CloseObject | OpenArray | CloseArray | Str(s: string) | Atom

  function Tokens(v: Json): (r: seq<Token>)
    ensures r != [] && !r[0].CloseObject? && !r[0].CloseArray?
  {
    match v
    case Text(s) => [Str(s)]
    case Scalar => [Atom]
    case Array(items) => [OpenArray] + ItemTokens(items) + [CloseArray]
    case Object(members) => [OpenObject] + MemberTokens(members) + [CloseObject]
  }

  function ItemTokens(items: Items): seq<Token> {
    match items
    case NoItems => []
    case Item(v, others) => Tokens(v) + ItemTokens(others)
  }

  function MemberTokens(members: Members): seq<Token> {
    match members
    case NoMembers => []
    case Member(n, v, rest) => [Str(n)] + Tokens(v) + MemberTokens(rest)
  }

  // ----- what is being looked for -----

  function Names(members: Members): seq<string> {
    match members
    case NoMembers => []
    case Member(n, _, rest) => [n] + Names(rest)
  }

  ghost predicate Distinct(names: seq<string>) {
    forall i, j :: 0 <= i < j < |names| ==> names[i] != names[j]
  }

  /** Some object, at some depth, names a member twice. */
  ghost predicate Repeats(v: Json) {
    match v
    case Text(_) => false
    case Scalar => false
    case Array(items) => ItemsRepeat(items)
    case Object(members) => !Distinct(Names(members)) || MembersRepeat(members)
  }

  ghost predicate ItemsRepeat(items: Items) {
    match items
    case NoItems => false
    case Item(v, others) => Repeats(v) || ItemsRepeat(others)
  }

  ghost predicate MembersRepeat(members: Members) {
    match members
    case NoMembers => false
    case Member(_, v, rest) => Repeats(v) || MembersRepeat(rest)
  }

  /** The first repeated name in document order. */
  function FirstRepeat(v: Json): Option<string> {
    match v
    case Text(_) => None
    case Scalar => None
    case Array(items) => FirstInItems(items)
    case Object(members) => FirstInMembers(members, {})
  }

  function FirstInItems(items: Items): Option<string> {
    match items
    case NoItems => None
    case Item(v, others) => if FirstRepeat(v).Some? then FirstRepeat(v) else FirstInItems(others)
  }

  function FirstInMembers(members: Members, seen: set<string>): Option<string> {
    match members
    case NoMembers => None
    case Member(n, v, rest) =>
      if n in seen then Some(n)
      else if FirstRepeat(v).Some? then FirstRepeat(v) else FirstInMembers(rest, seen + {n})
  }

  /** There is a first repeat exactly when some object repeats a name. */
  lemma {:induction false} FirstRepeatFindsRepeats(v: Json)
    ensures FirstRepeat(v).Some? <==> Repeats(v)
  {
    match v
    case Text(_) =>
    case Scalar =>
    case Array(items) => FirstInItemsFinds(items);
    case Object(members) => FirstInMembersFinds(members, {});
  }

  lemma {:induction false} FirstInItemsFinds(items: Items)
    ensures FirstInItems(items).Some? <==> ItemsRepeat(items)
  {
    if items.Item? {
      FirstRepeatFindsRepeats(items.item);
      FirstInItemsFinds(items.others);
    }
  }

  ghost predicate Overlaps(names: seq<string>, seen: set<string>) {
    exists x <- seen :: x in names
  }

  lemma DistinctCons(n: string, rest: seq<string>)
    ensures Distinct([n] + rest) <==> n !in rest && Distinct(rest)
  {
    var all := [n] + rest;
    assert forall i :: 0 <= i < |rest| ==> all[i + 1] == rest[i];
    if n in rest {
      var j :| 0 <= j < |rest| && rest[j] == n;
      assert all[0] == all[j + 1];
    }
    if i, j :| 0 <= i < j < |rest| && rest[i] == rest[j] {
      assert all[i + 1] == all[j + 1];
    }
  }

  lemma OverlapsCons(n: string, rest: seq<string>, seen: set<string>)
    ensures Overlaps([n] + rest, seen) <==> n in seen || Overlaps(rest, seen)
    ensures Overlaps(rest, seen + {n}) <==> n in rest || Overlaps(rest, seen)
  {
    if n in rest {
      assert n in seen + {n};
    }
    assert forall x :: x in [n] + rest <==> x == n || x in rest;
  }

  lemma {:induction false} FirstInMembersFinds(members: Members, seen: set<string>)
    ensures FirstInMembers(members, seen).Some? <==>
      !Distinct(Names(members)) || MembersRepeat(members) || Overlaps(Names(members), seen)
  {
    if members.Member? {
      FirstRepeatFindsRepeats(members.value);
      FirstInMembersFinds(members.rest, seen + {members.name});
      DistinctCons(members.name, Names(members.rest));
      OverlapsCons(members.name, Names(members.rest), seen);
    }
  }

  // ----- the explicit-stack scan -----

  datatype Frame = Frame(isObject: bool, expectKey: bool, keys: set<string>)

  datatype Outcome = Done(stack: seq<Frame>) | Duplicate(name: string) | Underflow

  /** The parent frame's next string is a key again. */
  function AfterValue(stack: seq<Frame>): seq<Frame> {
    if stack != [] && stack[|stack| - 1].isObject
    then stack[|stack| - 1 := stack[|stack| - 1].(expectKey := true)]
    else stack
  }

  predicate ExpectsKey(stack: seq<Frame>) {
    stack != [] && stack[|stack| - 1].isObject && stack[|stack| - 1].expectKey
  }

  function Step(stack: seq<Frame>, t: Token): Outcome {
    match t
    case OpenObject => Done(stack + [Frame(true, true, {})])
    case OpenArray => Done(stack + [Frame(false, false, {})])
    case Atom => Done(AfterValue(stack))
    case Str(s) =>
      if !ExpectsKey(stack) then Done(AfterValue(stack))
      else
        var top := stack[|stack| - 1];
        if s in top.keys then Duplicate(s)
        else Done(stack[|stack| - 1 := Frame(true, false, top.keys + {s})])
    case _ => if stack == [] then Underflow else Done(AfterValue(stack[..|stack| - 1]))
  }

  function Scan(stack: seq<Frame>, tokens: seq<Token>): Outcome
    decreases |tokens|
  {
    if tokens == [] then Done(stack)
    else match Step(stack, tokens[0])
      case Done(next) => Scan(next, tokens[1..])
      case stop => stop
  }

  lemma {:induction false} ScanConcat(stack: seq<Frame>, a: seq<Token>, b: seq<Token>)
    ensures Scan(stack, a + b) == if Scan(stack, a).Done? then Scan(Scan(stack, a).stack, b) else Scan(stack, a)
    decreases |a|
  {
    if a == [] {
      assert a + b == b;
    } else {
      assert (a + b)[1..] == a[1..] + b;
      if Step(stack, a[0]).Done? {
        ScanConcat(Step(stack, a[0]).stack, a[1..], b);
      }
    }
  }

  function Found(dup: Option<string>, otherwise: seq<Frame>): Outcome {
    if dup.Some? then Duplicate(dup.value) else Done(otherwise)
  }

  /** Wherever a value may stand, scanning it finds its first repeat or leaves the stack after a value. */
  lemma {:induction false} ScanValue(stack: seq<Frame>, v: Json)
    requires !ExpectsKey(stack)
    ensures Scan(stack, Tokens(v)) == Found(FirstRepeat(v), AfterValue(stack))
    decreases v
  {
    match v
    case Text(s) => assert Tokens(v)[1..] == [];
    case Scalar => assert Tokens(v)[1..] == [];
    case Array(items) =>
      var inner := stack + [Frame(false, false, {})];
      ScanItems(inner, items);
      ScanWrapped(stack, OpenArray, ItemTokens(items), CloseArray);
    case Object(members) =>
      var inner := stack + [Frame(true, true, {})];
      ScanMembers(stack, {}, members);
      ScanWrapped(stack, OpenObject, MemberTokens(members), CloseObject);
  }

  /** An opening token, a body and its closing token, in sequence. */
  lemma {:induction false} ScanWrapped(stack: seq<Frame>, open: Token, body: seq<Token>, close: Token)
    requires open.OpenObject? || open.OpenArray?
    requires close.CloseObject? || close.CloseArray?
    ensures var inner := Step(stack, open).stack;
      Scan(stack, [open] + body + [close]) ==
        if Scan(inner, body).Done? then Step(Scan(inner, body).stack, close) else Scan(inner, body)
  {
    var inner := Step(stack, open).stack;
    assert ([open] + body + [close])[1..] == body + [close];
    ScanConcat(inner, body, [close]);
    assert [close][1..] == [];
  }

  lemma {:induction false} ScanItems(inner: seq<Frame>, items: Items)
    requires inner != [] && !inner[|inner| - 1].isObject
    ensures Scan(inner, ItemTokens(items)) == Found(FirstInItems(items), inner)
    decreases items
  {
    if items.Item? {
      ScanValue(inner, items.item);
      ScanConcat(inner, Tokens(items.item), ItemTokens(items.others));
      ScanItems(inner, items.others);
    }
  }

  lemma {:induction false} ScanMembers(outer: seq<Frame>, keys: set<string>, members: Members)
    ensures var r := Scan(outer + [Frame(true, true, keys)], MemberTokens(members));
      match FirstInMembers(members, keys)
      case Some(d) => r == Duplicate(d)
      case None => r.Done? && |r.stack| == |outer| + 1 && r.stack[..|outer|] == outer
    decreases members
  {
    var stack := outer + [Frame(true, true, keys)];
    if members.Member? {
      var n, v, rest := members.name, members.value, members.rest;
      var tail := Tokens(v) + MemberTokens(rest);
      assert MemberTokens(members) == [Str(n)] + tail && MemberTokens(members)[1..] == tail;
      if n !in keys {
        var valueStack := outer + [Frame(true, false, keys + {n})];
        assert Step(stack, Str(n)) == Done(valueStack);
        ScanValue(valueStack, v);
        ScanConcat(valueStack, Tokens(v), MemberTokens(rest));
        assert AfterValue(valueStack) == outer + [Frame(true, true, keys + {n})];
        ScanMembers(outer, keys + {n}, rest);
      }
    }
  }

  /** rejectDuplicateKeys: the loop over the decoder's tokens, with an explicit stack of frames. */
  method RejectDuplicateKeys(v: Json) returns (dup: Option<string>)
    ensures dup == FirstRepeat(v)
    ensures dup.Some? <==> Repeats(v)
  {
    var tokens := Tokens(v);
    var stack: seq<Frame> := [];
    ScanValue([], v);
    FirstRepeatFindsRepeats(v);
    for i := 0 to |tokens|
      invariant Scan(stack, tokens[i..]) == Found(FirstRepeat(v), [])
    {
      assert tokens[i..][1..] == tokens[i + 1..];
      match tokens[i] {
        case OpenObject =>
          stack := stack + [Frame(true, true, {})];
        case OpenArray =>
          stack := stack + [Frame(false, false, {})];
        case Str(s) =>
          if ExpectsKey(stack) {
            var top := stack[|stack| - 1];
            if s in top.keys {
              return Some(s);
            }
            stack := stack[|stack| - 1 := Frame(true, false, top.keys + {s})];
          } else {
            stack := AfterValue(stack);
          }
        case Atom =>
          stack := AfterValue(stack);
        case _ =>
          assert stack != [];
          stack := AfterValue(stack[..|stack| - 1]);
      }
    }
    return None;
  }

  // ----- the recursive scan -----

  predicate At(tokens: seq<Token>, pos: nat, part: seq<Token>) {
    pos + |part| <= |tokens| && tokens[pos..pos + |part|] == part
  }

  lemma AtParts(tokens: seq<Token>, pos: nat, a: seq<Token>, b: seq<Token>)
    requires At(tokens, pos, a + b)
    ensures At(tokens, pos, a) && At(tokens, pos + |a|, b)
  {
    var whole := tokens[pos..pos + |a + b|];
    assert whole[..|a|] == a && whole[|a|..] == b;
    assert tokens[pos..pos + |a|] == whole[..|a|];
    assert tokens[pos + |a|..pos + |a| + |b|] == whole[|a|..];
  }

  lemma FirstAt(tokens: seq<Token>, pos: nat, part: seq<Token>)
    requires At(tokens, pos, part) && part != []
    ensures pos < |tokens| && tokens[pos] == part[0]
  {
    assert tokens[pos..pos + |part|][0] == part[0];
  }

  /** The decoder's More: the next token does not close the array or object being read. */
  predicate More(t: Token) {
    !t.CloseObject? && !t.CloseArray?
  }

  lemma {:induction false} MoreItems(tokens: seq<Token>, pos: nat, left: Items)
    requires At(tokens, pos, ItemTokens(left) + [CloseArray])
    ensures pos < |tokens| && (More(tokens[pos]) <==> left.Item?)
  {
    FirstAt(tokens, pos, ItemTokens(left) + [CloseArray]);
  }

  lemma {:induction false} MoreMembers(tokens: seq<Token>, pos: nat, left: Members)
    requires At(tokens, pos, MemberTokens(left) + [CloseObject])
    ensures pos < |tokens| && (More(tokens[pos]) <==> left.Member?)
  {
    FirstAt(tokens, pos, MemberTokens(left) + [CloseObject]);
  }

  /** rejectDupDec on a decoder positioned at a value: its first repeat, or the position after the value. */
  method RejectDup(tokens: seq<Token>, pos: nat, ghost v: Json) returns (dup: Option<string>, next: nat)
    requires At(tokens, pos, Tokens(v))
    ensures dup == FirstRepeat(v)
    ensures dup.None? ==> next == pos + |Tokens(v)|
    decreases |tokens| - pos, 0
  {
    FirstAt(tokens, pos, Tokens(v));
    var t := tokens[pos];
    next := pos + 1;
    if !t.OpenObject? && !t.OpenArray? {
      return None, next;
    }
    ghost var body := if v.Object? then MemberTokens(v.members) else ItemTokens(v.items);
    ghost var close := if v.Object? then CloseObject else CloseArray;
    assert Tokens(v) == [t] + (body + [close]);
    AtParts(tokens, pos, [t], body + [close]);
    if t.OpenObject? {
      dup, next := RejectDupMembers(tokens, next, v.members);
    } else {
      dup, next := RejectDupItems(tokens, next, v.items);
    }
    if dup.None? {
      next := next + 1;
    }
  }

  /** The loop of rejectDupDec inside an array. */
  method RejectDupItems(tokens: seq<Token>, pos: nat, ghost items: Items) returns (dup: Option<string>, next: nat)
    requires At(tokens, pos, ItemTokens(items) + [CloseArray])
    ensures dup == FirstInItems(items)
    ensures dup.None? ==> next == pos + |ItemTokens(items)|
    decreases |tokens| - pos, 1
  {
    ghost var left := items;
    next := pos;
    MoreItems(tokens, next, left);
    while More(tokens[next])
      invariant At(tokens, next, ItemTokens(left) + [CloseArray])
      invariant next < |tokens| && (More(tokens[next]) <==> left.Item?)
      invariant FirstInItems(items) == FirstInItems(left)
      invariant pos <= next && next + |ItemTokens(left)| == pos + |ItemTokens(items)|
      decreases |tokens| - next
    {
      assert ItemTokens(left) + [CloseArray] == Tokens(left.item) + (ItemTokens(left.others) + [CloseArray]);
      AtParts(tokens, next, Tokens(left.item), ItemTokens(left.others) + [CloseArray]);
      dup, next := RejectDup(tokens, next, left.item);
      if dup.Some? {
        return;
      }
      left := left.others;
      MoreItems(tokens, next, left);
    }
    return None, next;
  }

  lemma {:induction false} MemberAt(tokens: seq<Token>, pos: nat, left: Members)
    requires left.Member? && At(tokens, pos, MemberTokens(left) + [CloseObject])
    ensures pos < |tokens| && tokens[pos] == Str(left.name)
    ensures At(tokens, pos + 1, Tokens(left.value))
    ensures At(tokens, pos + 1 + |Tokens(left.value)|, MemberTokens(left.rest) + [CloseObject])
  {
    AtFourParts(tokens, pos, [Str(left.name)], Tokens(left.value), MemberTokens(left.rest), [CloseObject]);
    FirstAt(tokens, pos, [Str(left.name)]);
  }

  lemma AtFourParts(tokens: seq<Token>, pos: nat, a: seq<Token>, b: seq<Token>, c: seq<Token>, d: seq<Token>)
    requires At(tokens, pos, a + b + c + d)
    ensures At(tokens, pos, a) && At(tokens, pos + |a|, b) && At(tokens, pos + |a| + |b|, c + d)
  {
    assert a + b + c + d == (a + b) + (c + d);
    AtParts(tokens, pos, a + b, c + d);
    AtParts(tokens, pos, a, b);
  }

  /** The loop of rejectDupDec inside an object. */
  method RejectDupMembers(tokens: seq<Token>, pos: nat, ghost members: Members) returns (dup: Option<string>, next: nat)
    requires At(tokens, pos, MemberTokens(members) + [CloseObject])
    ensures dup == FirstInMembers(members, {})
    ensures dup.None? ==> next == pos + |MemberTokens(members)|
    decreases |tokens| - pos, 1
  {
    ghost var left := members;
    var seen: set<string> := {};
    next := pos;
    MoreMembers(tokens, next, left);
    while More(tokens[next])
      invariant At(tokens, next, MemberTokens(left) + [CloseObject])
      invariant next < |tokens| && (More(tokens[next]) <==> left.Member?)
      invariant FirstInMembers(members, {}) == FirstInMembers(left, seen)
      invariant pos <= next && next + |MemberTokens(left)| == pos + |MemberTokens(members)|
      decreases |tokens| - next
    {
      MemberAt(tokens, next, left);
      var key := tokens[next].s;
      if key in seen {
        return Some(key), next;
      }
      seen := seen + {key};
      dup, next := RejectDup(tokens, next + 1, left.value);
      if dup.Some? {
        return;
      }
      left := left.rest;
      MoreMembers(tokens, next, left);
    }
    return None, next;
  }

  /** The two scans name the same member of every document, and one exactly when some object repeats a name. */
  method ScansAgree(v: Json) returns (byStack: Option<string>, byRecursion: Option<string>)
    ensures byStack == byRecursion
    ensures byStack.Some? <==> Repeats(v)
  {
    byStack := RejectDuplicateKeys(v);
    var tokens := Tokens(v);
    assert tokens[0..|tokens|] == tokens;
    var dup, _ := RejectDup(tokens, 0, v);
    byRecursion := dup;
  }
}
