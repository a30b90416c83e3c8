/** The text a request body is hashed by
    (apps/idempotency-service/src/services/request-hash.service.ts). */
module RequestHash {
  import I = IdempotencyService
  import L = RedisLock

  /** A parsed body. An object is the list of its members in the order they arrived; a number is what
      String makes of it. */
  datatype Json =
    | Undefined
    | Null
    | Bool(b: bool)
    | Number(text: string)
    | Text(s: string)
    | Array(items: seq<Json>)
    | Object(members: seq<Member>)

  datatype Member = Member(key: string, value: Json)

  /** A rendered member. */
  datatype Pair = Pair(key: string, text: string)

  /* ---- Sorting by key ---- */

  /** String order: by the first character that differs, a prefix first. */
  predicate Before(a: string, b: string) {
    if |b| == 0 then false
    else if |a| == 0 then true
    else if a[0] != b[0] then a[0] < b[0]
    else Before(a[1..], b[1..])
  }

  lemma {:induction false} BeforeTransitive(a: string, b: string, c: string)
    requires Before(a, b) && Before(b, c)
    ensures Before(a, c)
  {
    if |a| > 0 && a[0] == b[0] && b[0] == c[0] {
      BeforeTransitive(a[1..], b[1..], c[1..]);
    }
  }

  lemma {:induction false} BeforeTotal(a: string, b: string)
    ensures a == b || Before(a, b) || Before(b, a)
    ensures !(Before(a, b) && Before(b, a)) && !(a == b && Before(a, b))
  {
    if |a| > 0 && |b| > 0 && a[0] == b[0] {
      BeforeTotal(a[1..], b[1..]);
      assert a == [a[0]] + a[1..] && b == [b[0]] + b[1..];
    }
  }

  ghost predicate Ascending(s: seq<Pair>) {
    forall i, j :: 0 <= i < j < |s| ==> Before(s[i].key, s[j].key)
  }

  function Insert(p: Pair, s: seq<Pair>): seq<Pair> {
    if |s| == 0 || Before(p.key, s[0].key) then [p] + s else [s[0]] + Insert(p, s[1..])
  }

  /** `keys.sort()`, carrying each key's rendered value along. */
  function Sort(s: seq<Pair>): seq<Pair> {
    if |s| == 0 then [] else Insert(s[0], Sort(s[1..]))
  }

  ghost function Elements(s: seq<Pair>): set<Pair> {
    set p | p in s
  }

  /** The first of an ascending list is its least, and the rest is what remains without it. */
  lemma Least(s: seq<Pair>)
    requires |s| > 0 && Ascending(s)
    ensures forall p :: p in Elements(s) ==> p == s[0] || Before(s[0].key, p.key)
    ensures Ascending(s[1..]) && Elements(s[1..]) == Elements(s) - {s[0]}
  {
    hide Before;
    forall i | 0 < i < |s| ensures s[i] != s[0] {
      BeforeTotal(s[0].key, s[i].key);
    }
    assert s == [s[0]] + s[1..];
  }

  lemma AscendingFrom(p: Pair, s: seq<Pair>)
    requires Ascending(s) && forall q :: q in Elements(s) ==> Before(p.key, q.key)
    ensures Ascending([p] + s)
  {
    hide Before;
    forall i | 0 <= i < |s| ensures Before(p.key, s[i].key) {
      assert s[i] in Elements(s);
    }
  }

  lemma {:induction false} InsertSorted(p: Pair, s: seq<Pair>)
    requires Ascending(s) && forall q :: q in Elements(s) ==> q.key != p.key
    ensures Ascending(Insert(p, s)) && Elements(Insert(p, s)) == Elements(s) + {p}
  {
    hide Before, Ascending;
    if |s| == 0 {
      AscendingFrom(p, s);
    } else {
      Least(s);
      BeforeTotal(p.key, s[0].key);
      assert s[0] in Elements(s);
      if Before(p.key, s[0].key) {
        forall q | q in Elements(s) ensures Before(p.key, q.key) {
          if q != s[0] {
            BeforeTransitive(p.key, s[0].key, q.key);
          }
        }
        AscendingFrom(p, s);
      } else {
        InsertSorted(p, s[1..]);
        AscendingFrom(s[0], Insert(p, s[1..]));
      }
    }
  }

  ghost predicate DistinctKeys(s: seq<Pair>) {
    forall i, j :: 0 <= i < j < |s| ==> s[i].key != s[j].key
  }

  lemma {:induction false} SortSorts(s: seq<Pair>)
    requires DistinctKeys(s)
    ensures Ascending(Sort(s)) && Elements(Sort(s)) == Elements(s)
  {
    hide Before, Insert;
    if |s| > 0 {
      SortSorts(s[1..]);
      InsertSorted(s[0], Sort(s[1..]));
      assert s == [s[0]] + s[1..];
    }
  }

  lemma NoElements(s: seq<Pair>)
    ensures s == [] <==> Elements(s) == {}
  {
    assert |s| > 0 ==> s[0] in Elements(s);
  }

  /** There is only one way to list the same pairs in ascending order. */
  lemma {:induction false} AscendingUnique(s: seq<Pair>, t: seq<Pair>)
    requires Ascending(s) && Ascending(t) && Elements(s) == Elements(t)
    ensures s == t
  {
    hide Before, Ascending;
    NoElements(s);
    NoElements(t);
    if |s| > 0 {
      Least(s);
      Least(t);
      assert s[0] in Elements(t) && t[0] in Elements(s);
      BeforeTotal(s[0].key, t[0].key);
      AscendingUnique(s[1..], t[1..]);
    }
  }

  /* ---- The rendering ---- */

  function Join(texts: seq<string>): string {
    if |texts| == 0 then "" else if |texts| == 1 then texts[0] else texts[0] + "," + Join(texts[1..])
  }

  /** `deterministicStringify`. */
  function Stringify(v: Json): string {
    match v
    case Undefined => ""
    case Null => ""
    case Bool(b) => if b then "true" else "false"
    case Number(text) => text
    case Text(s) => s
    case Array(items) => "[" + Join(StringifyAll(items)) + "]"
    case Object(members) => "{" + Join(Properties(Sort(Render(members)))) + "}"
  }

  function StringifyAll(items: seq<Json>): seq<string> {
    if |items| == 0 then [] else [Stringify(items[0])] + StringifyAll(items[1..])
  }

  function Render(members: seq<Member>): seq<Pair> {
    if |members| == 0 then []
    else [Pair(members[0].key, Stringify(members[0].value))] + Render(members[1..])
  }

  function Properties(pairs: seq<Pair>): seq<string> {
    seq(|pairs|, i requires 0 <= i < |pairs| => "\"" + pairs[i].key + "\":" + pairs[i].text)
  }

  lemma {:induction false} RenderAt(members: seq<Member>)
    ensures |Render(members)| == |members|
    ensures forall i :: 0 <= i < |members| ==> Render(members)[i] == Pair(members[i].key, Stringify(members[i].value))
  {
    if |members| > 0 {
      RenderAt(members[1..]);
    }
  }

  lemma {:induction false} StringifyAllAt(items: seq<Json>)
    ensures |StringifyAll(items)| == |items|
    ensures forall i :: 0 <= i < |items| ==> StringifyAll(items)[i] == Stringify(items[i])
  {
    if |items| > 0 {
      StringifyAllAt(items[1..]);
    }
  }

  /* ---- Key order does not matter ---- */

  /** An object has each key once, at every depth. */
  ghost predicate Proper(v: Json) {
    match v
    case Array(items) => forall i :: 0 <= i < |items| ==> Proper(items[i])
    case Object(members) =>
      && (forall i, j :: 0 <= i < j < |members| ==> members[i].key != members[j].key)
      && (forall i :: 0 <= i < |members| ==> Proper(members[i].value))
    case _ => true
  }

  predicate Scalar(v: Json) {
    !v.Array? && !v.Object?
  }

  /** When two scalars count as the same: when they are, or when they only print alike, as the string
      "1" and the number 1 do, or null, undefined and the empty string. */
  datatype Leaves = Equal | PrintAlike

  /** The same value, up to the order of object members at any depth (section 1 of RFC 8259). */
  ghost predicate Same(leaves: Leaves, a: Json, b: Json)
    decreases a
  {
    match (a, b)
    case (Array(xs), Array(ys)) => |xs| == |ys| && forall i :: 0 <= i < |xs| ==> Same(leaves, xs[i], ys[i])
    case (Object(ms), Object(ns)) =>
      && (forall i {:trigger Matched(leaves, ms[i], ns)} :: 0 <= i < |ms| ==> Matched(leaves, ms[i], ns))
      && (forall j {:trigger MatchedBack(leaves, ns[j], ms)} :: 0 <= j < |ns| ==> MatchedBack(leaves, ns[j], ms))
    case _ => if leaves.Equal? then a == b else Scalar(a) && Scalar(b) && Stringify(a) == Stringify(b)
  }

  ghost predicate Matched(leaves: Leaves, m: Member, ns: seq<Member>)
    decreases m
  {
    exists j :: 0 <= j < |ns| && m.key == ns[j].key && Same(leaves, m.value, ns[j].value)
  }

  ghost predicate MatchedBack(leaves: Leaves, n: Member, ms: seq<Member>)
    decreases ms
  {
    exists i :: 0 <= i < |ms| && ms[i].key == n.key && Same(leaves, ms[i].value, n.value)
  }

  /** Two bodies that differ only in the order of their members, and in scalars that print alike, have
      the same text. */
  lemma {:induction false} KeyOrderInvariant(leaves: Leaves, a: Json, b: Json)
    requires Proper(a) && Proper(b) && Same(leaves, a, b)
    ensures Stringify(a) == Stringify(b)
    decreases a, 2
  {
    if a.Object? && b.Object? {
      hide Same;
      RenderedWithin(leaves, a, b);
      RenderedAround(leaves, a, b);
      hide Elements;
      Distinct(a.members);
      Distinct(b.members);
      SortSorts(Render(a.members));
      SortSorts(Render(b.members));
      AscendingUnique(Sort(Render(a.members)), Sort(Render(b.members)));
    } else if a.Array? {
      var xs, ys := a.items, b.items;
      forall i | 0 <= i < |xs| ensures Stringify(xs[i]) == Stringify(ys[i]) {
        KeyOrderInvariant(leaves, xs[i], ys[i]);
      }
      StringifyAllAt(xs);
      StringifyAllAt(ys);
      assert StringifyAll(xs) == StringifyAll(ys);
    }
  }

  lemma Distinct(members: seq<Member>)
    requires Proper(Object(members))
    ensures DistinctKeys(Render(members))
  {
    RenderAt(members);
  }

  /** The member of `ns` that an equal object has for the i-th of `ms`. */
  lemma Counterpart(leaves: Leaves, ms: seq<Member>, ns: seq<Member>, i: nat) returns (j: nat)
    requires Same(leaves, Object(ms), Object(ns)) && i < |ms|
    ensures j < |ns| && ms[i].key == ns[j].key && Same(leaves, ms[i].value, ns[j].value)
  {
    assert Matched(leaves, ms[i], ns);
    j :| 0 <= j < |ns| && ms[i].key == ns[j].key && Same(leaves, ms[i].value, ns[j].value);
  }

  lemma CounterpartBack(leaves: Leaves, ms: seq<Member>, ns: seq<Member>, j: nat) returns (i: nat)
    requires Same(leaves, Object(ms), Object(ns)) && j < |ns|
    ensures i < |ms| && ms[i].key == ns[j].key && Same(leaves, ms[i].value, ns[j].value)
  {
    assert MatchedBack(leaves, ns[j], ms);
    i :| 0 <= i < |ms| && ms[i].key == ns[j].key && Same(leaves, ms[i].value, ns[j].value);
  }

  lemma {:induction false} RenderedThere(leaves: Leaves, a: Json, b: Json, i: nat)
    requires Proper(a) && Proper(b) && Same(leaves, a, b) && a.Object? && b.Object? && i < |a.members|
    ensures Pair(a.members[i].key, Stringify(a.members[i].value)) in Elements(Render(b.members))
    decreases a, 0
  {
    var ms, ns := a.members, b.members;
    var j := Counterpart(leaves, ms, ns, i);
    assert Proper(ms[i].value) && Proper(ns[j].value);
    hide Same, Proper, Stringify;
    KeyOrderInvariant(leaves, ms[i].value, ns[j].value);
    RenderAt(ns);
    assert Render(ns)[j] in Elements(Render(ns));
  }

  lemma {:induction false} RenderedWithin(leaves: Leaves, a: Json, b: Json)
    requires Proper(a) && Proper(b) && Same(leaves, a, b) && a.Object? && b.Object?
    ensures Elements(Render(a.members)) <= Elements(Render(b.members))
    decreases a, 1
  {
    hide Same, Proper, Stringify;
    RenderAt(a.members);
    forall i | 0 <= i < |a.members| ensures Render(a.members)[i] in Elements(Render(b.members)) {
      RenderedThere(leaves, a, b, i);
    }
  }

  lemma {:induction false} RenderedHere(leaves: Leaves, a: Json, b: Json, j: nat)
    requires Proper(a) && Proper(b) && Same(leaves, a, b) && a.Object? && b.Object? && j < |b.members|
    ensures Pair(b.members[j].key, Stringify(b.members[j].value)) in Elements(Render(a.members))
    decreases a, 0
  {
    var ms, ns := a.members, b.members;
    var i := CounterpartBack(leaves, ms, ns, j);
    assert Proper(ms[i].value) && Proper(ns[j].value);
    hide Same, Proper, Stringify;
    KeyOrderInvariant(leaves, ms[i].value, ns[j].value);
    RenderAt(ms);
    assert Render(ms)[i] in Elements(Render(ms));
  }

  lemma {:induction false} RenderedAround(leaves: Leaves, a: Json, b: Json)
    requires Proper(a) && Proper(b) && Same(leaves, a, b) && a.Object? && b.Object?
    ensures Elements(Render(b.members)) <= Elements(Render(a.members))
    decreases a, 1
  {
    hide Same, Proper, Stringify;
    RenderAt(b.members);
    forall j | 0 <= j < |b.members| ensures Render(b.members)[j] in Elements(Render(a.members)) {
      RenderedHere(leaves, a, b, j);
    }
  }

  /** `generate`, for whatever digest it uses. */
  function Generate(body: Json, digest: string -> string): L.Hash {
    L.Hash(digest(Stringify(body)))
  }

  /** So a retry whose body was written with its members in another order is never refused as a
      mismatch. */
  lemma ReorderedRetryMatches(record: L.Record, first: Json, retry: Json, digest: string -> string)
    requires record.requestHash == Generate(first, digest)
    requires Proper(first) && Proper(retry) && Same(Equal, first, retry)
    ensures !I.Judge(record, Generate(retry, digest)).Mismatch?
  {
    KeyOrderInvariant(Equal, first, retry);
  }

  /** A member as it is printed. */
  function Property(key: string, text: string): string {
    "\"" + key + "\":" + text
  }

  lemma Splice(key: string, text: string, rest: string)
    ensures Property(key, text) + rest == Property(key, text + rest)
  {
  }

  lemma OneProperty(key: string, v: Json)
    ensures Stringify(Object([Member(key, v)])) == "{" + Property(key, Stringify(v)) + "}"
  {
    var members := [Member(key, v)];
    RenderAt(members);
    assert Render(members) == [Pair(key, Stringify(v))];
    assert Sort(Render(members)) == Render(members);
    assert Properties(Render(members)) == [Property(key, Stringify(v))];
  }

  lemma TwoProperties(k: string, v: Json, l: string, w: Json)
    requires Before(k, l)
    ensures Stringify(Object([Member(k, v), Member(l, w)]))
         == "{" + (Property(k, Stringify(v)) + "," + Property(l, Stringify(w))) + "}"
  {
    var members := [Member(k, v), Member(l, w)];
    var p, q := Pair(k, Stringify(v)), Pair(l, Stringify(w));
    RenderAt(members);
    assert Render(members) == [p, q];
    assert [p, q][1..] == [q] && [q][1..] == [];
    assert Sort([q]) == [q];
    assert Sort([p, q]) == [p, q];
    assert Stringify(Object(members)) == "{" + Join(Properties([p, q])) + "}";
    hide Render, Sort, Before, Stringify;
    var first, second := Property(k, p.text), Property(l, q.text);
    assert Properties([p, q]) == [first, second];
    assert [first, second][1..] == [second];
    assert Join([second]) == second;
    assert Join([first, second]) == first + "," + second;
  }

  /** A string is printed without quotes, so that an object of two strings has the text of an object of
      one. */
  lemma TwoLikeOne(k: string, a: string, l: string, b: string, spliced: string)
    requires Before(k, l) && spliced == a + ("," + Property(l, b))
    ensures Stringify(Object([Member(k, Text(a)), Member(l, Text(b))])) == Stringify(Object([Member(k, Text(spliced))]))
  {
    hide Property, Before;
    TwoProperties(k, Text(a), l, Text(b));
    OneProperty(k, Text(spliced));
    Splice(k, a, "," + Property(l, b));
    assert Property(k, a) + "," + Property(l, b) == Property(k, a) + ("," + Property(l, b));
  }

  /** The text does not determine the body: null, undefined and the empty string print alike anywhere,
      and for any object of two strings there is an object of one with the same text. */
  lemma TextIsNotInjective(k: string, a: string, l: string, b: string)
    requires Before(k, l)
    ensures Stringify(Null) == Stringify(Undefined) == Stringify(Text(""))
    ensures exists s ::
      Stringify(Object([Member(k, Text(s))])) == Stringify(Object([Member(k, Text(a)), Member(l, Text(b))]))
  {
    TwoLikeOne(k, a, l, b, a + ("," + Property(l, b)));
  }
}
