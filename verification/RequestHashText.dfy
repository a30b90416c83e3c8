/** When the text of a request body determines the body
    (apps/idempotency-service/src/services/request-hash.service.ts). */
module RequestHashText {
  import opened RequestHash
  import I = IdempotencyService
  import L = RedisLock

  /** The characters that give the text its structure. */
  predicate IsMark(c: char) {
    c == '[' || c == ']' || c == '{' || c == '}' || c == ','
  }

  predicate Unmarked(t: string) {
    forall i :: 0 <= i < |t| ==> !IsMark(t[i])
  }

  /** A body whose text can be read back: no scalar prints a bracket, brace or comma, no key holds a
      quote, and no array has a single item that prints as nothing. */
  ghost predicate Plain(v: Json) {
    match v
    case Array(items) =>
      && (forall i :: 0 <= i < |items| ==> Plain(items[i]))
      && !(|items| == 1 && Stringify(items[0]) == "")
    case Object(members) =>
      && (forall i, j :: 0 <= i < j < |members| ==> members[i].key != members[j].key)
      && (forall i :: 0 <= i < |members| ==> '"' !in members[i].key && Plain(members[i].value))
    case _ => Unmarked(Stringify(v))
  }

  lemma {:induction false} PlainIsProper(v: Json)
    requires Plain(v)
    ensures Proper(v)
    decreases v
  {
    match v
    case Array(items) =>
      forall i | 0 <= i < |items| ensures Proper(items[i]) {
        PlainIsProper(items[i]);
      }
    case Object(members) =>
      forall i | 0 <= i < |members| ensures Proper(members[i].value) {
        PlainIsProper(members[i].value);
      }
    case _ =>
  }

  /* ---- The parts of a text ---- */

  /** The printed members of an object, in order. */
  ghost function Sorted(members: seq<Member>): seq<Pair> {
    Sort(Render(members))
  }

  lemma SortedFrom(members: seq<Member>, k: nat) returns (i: nat)
    requires Proper(Object(members)) && k < |Sorted(members)|
    ensures i < |members| && Sorted(members)[k] == Pair(members[i].key, Stringify(members[i].value))
  {
    Distinct(members);
    SortSorts(Render(members));
    RenderAt(members);
    var p := Sorted(members)[k];
    assert p in Elements(Sorted(members));
    assert p in Render(members);
    i :| 0 <= i < |members| && Render(members)[i] == p;
  }

  /** What stands between the brackets of an array or an object, comma by comma. */
  ghost function Parts(v: Json): seq<string>
    requires !Scalar(v)
  {
    if v.Array? then StringifyAll(v.items) else Properties(Sorted(v.members))
  }

  function Left(v: Json): string {
    if v.Array? then "[" else "{"
  }

  function Right(v: Json): string {
    if v.Array? then "]" else "}"
  }

  /** All parts from the i-th on, each behind its comma. */
  ghost function From(texts: seq<string>, i: nat): string
    requires i <= |texts|
    decreases |texts| - i
  {
    if i == |texts| then "" else "," + (texts[i] + From(texts, i + 1))
  }

  lemma {:induction false} JoinFrom(texts: seq<string>, i: nat)
    requires i < |texts|
    ensures Join(texts[i..]) == texts[i] + From(texts, i + 1)
    decreases |texts| - i
  {
    if i + 1 < |texts| {
      JoinFrom(texts, i + 1);
      assert texts[i..][1..] == texts[i + 1..];
      assert texts[i] + "," + Join(texts[i + 1..]) == texts[i] + ("," + Join(texts[i + 1..]));
    } else {
      assert texts[i..] == [texts[i]];
    }
  }

  /** A container's text, with what follows it. */
  lemma TextOf(v: Json, x: string)
    requires !Scalar(v)
    ensures var parts := Parts(v);
      Stringify(v) + x
        == Left(v) + (if parts == [] then Right(v) + x else parts[0] + (From(parts, 1) + (Right(v) + x)))
  {
    var parts := Parts(v);
    assert Stringify(v) == Left(v) + Join(parts) + Right(v);
    if parts != [] {
      JoinFrom(parts, 0);
      assert parts[0..] == parts;
      hide *;
      Regroup(Left(v), parts[0] + From(parts, 1), Right(v), x);
      assert parts[0] + From(parts, 1) + (Right(v) + x) == parts[0] + (From(parts, 1) + (Right(v) + x));
    } else {
      assert Join(parts) == "";
      hide *;
      Regroup(Left(v), "", Right(v), x);
      assert "" + (Right(v) + x) == Right(v) + x;
    }
  }

  lemma Regroup(left: string, inner: string, right: string, x: string)
    ensures left + inner + right + x == left + (inner + (right + x))
  {
  }

  /* ---- Where a value ends ---- */

  /** What can follow a value: nothing, a comma, or a closing bracket. */
  predicate Ends(x: string) {
    x == "" || x[0] == ',' || x[0] == ']' || x[0] == '}'
  }

  lemma SameLength(t: string, x: string, u: string, y: string)
    requires t + x == u + y && |t| == |u|
    ensures t == u && x == y
  {
    assert (t + x)[..|t|] == t && (u + y)[..|u|] == u && (t + x)[|t|..] == x && (u + y)[|u|..] == y;
  }

  /** A plain value begins with nothing that could end one. */
  lemma Begins(v: Json, x: string)
    requires Plain(v) && Ends(x)
    ensures v.Array? ==> (Stringify(v) + x)[0] == '['
    ensures v.Object? ==> (Stringify(v) + x)[0] == '{'
    ensures Scalar(v) ==> Stringify(v) + x == "" || ((Stringify(v) + x)[0] != '[' && (Stringify(v) + x)[0] != '{')
    ensures Ends(Stringify(v) + x) ==> Stringify(v) == ""
  {
    if Scalar(v) && Stringify(v) != "" {
      assert !IsMark(Stringify(v)[0]);
    }
  }

  /** Where one text is shorter, what follows it is the next character of the other. */
  lemma NextChar(t: string, x: string, u: string, y: string)
    requires t + x == u + y && |t| < |u|
    ensures x != "" && x[0] == u[|t|]
  {
    assert (t + x)[|t|] == x[0] && (u + y)[|t|] == u[|t|];
  }

  lemma ScalarEnds(t: string, x: string, u: string, y: string)
    requires Unmarked(t) && Unmarked(u) && Ends(x) && Ends(y) && t + x == u + y
    ensures t == u && x == y
  {
    if |t| < |u| {
      NextChar(t, x, u, y);
    } else if |u| < |t| {
      NextChar(u, y, t, x);
    }
    SameLength(t, x, u, y);
  }

  lemma KeyOf(key: string, text: string)
    requires '"' !in key
    ensures var p := Property(key, text);
      && |p| > |key| + 2 && p[|key| + 1] == '"' && (forall i :: 0 < i <= |key| ==> p[i] != '"')
      && p[1..|key| + 1] == key && p[|key| + 3..] == text
  {
    var name := "\"" + key + "\":";
    assert |name| == |key| + 3 && name[1..|key| + 1] == key && name[|key| + 1] == '"';
    assert forall i :: 0 < i <= |key| ==> name[i] == key[i - 1];
    assert Property(key, text) == name + text;
  }

  /** A property ends where its value does, its key where its quote does. */
  lemma PropertyBegins(p: Pair, x: string, q: Pair, y: string)
    requires '"' !in p.key && '"' !in q.key && Property(p.key, p.text) + x == Property(q.key, q.text) + y
    ensures p.key == q.key && p.text + x == q.text + y
  {
    var a, b := Property(p.key, p.text), Property(q.key, q.text);
    KeyOf(p.key, p.text);
    KeyOf(q.key, q.text);
    hide Property;
    assert forall i :: 0 <= i < |a| ==> (a + x)[i] == a[i];
    assert forall i :: 0 <= i < |b| ==> (b + y)[i] == b[i];
    assert |p.key| == |q.key|;
    var n := |p.key| + 3;
    assert (a + x)[n..] == a[n..] + x && (b + y)[n..] == b[n..] + y;
    assert (a + x)[1..n - 2] == a[1..n - 2] && (b + y)[1..n - 2] == b[1..n - 2];
  }

  /** Two plain values that stand at the same place of the same text are printed alike. */
  lemma {:induction false} ValueEnds(v: Json, x: string, w: Json, y: string)
    requires Plain(v) && Plain(w) && Ends(x) && Ends(y) && Stringify(v) + x == Stringify(w) + y
    ensures Stringify(v) == Stringify(w) && x == y
    decreases v, 3
  {
    Begins(v, x);
    Begins(w, y);
    if Scalar(v) {
      ScalarEnds(Stringify(v), x, Stringify(w), y);
    } else {
      ContainerEnds(v, x, w, y);
      SameLength(Stringify(v), x, Stringify(w), y);
    }
  }

  lemma {:induction false} ContainerEnds(v: Json, x: string, w: Json, y: string)
    requires Plain(v) && Plain(w) && !Scalar(v) && !Scalar(w) && v.Array? == w.Array?
    requires Ends(x) && Ends(y) && Stringify(v) + x == Stringify(w) + y
    ensures Parts(v) == Parts(w) && Stringify(v) == Stringify(w)
    decreases v, 2
  {
    var vs, ws := Parts(v), Parts(w);
    var rv, rw := Right(v) + x, Right(w) + y;
    TextOf(v, x);
    TextOf(w, y);
    if vs == [] || ws == [] {
      NoParts(v, x, w, y);
    } else {
      var av, aw := From(vs, 1) + rv, From(ws, 1) + rw;
      assert Left(v) == Left(w) && rv != "" && rw != "" && rv[0] == rw[0] == Right(v)[0] && Ends(rv) && Ends(rw);
      hide Plain, Parts, Stringify, From;
      SameRest(Left(v), vs[0] + av, ws[0] + aw);
      FromEnds(vs, 1, rv);
      FromEnds(ws, 1, rw);
      PartEnds(v, 0, av, w, 0, aw);
      ListEnds(v, 1, rv, w, 1, rw);
      FirstOf(vs, 0);
      FirstOf(ws, 0);
      assert vs[0..] == vs && ws[0..] == ws;
    }
    SameParts(v, w);
  }

  lemma SameParts(v: Json, w: Json)
    requires !Scalar(v) && !Scalar(w) && v.Array? == w.Array? && Parts(v) == Parts(w)
    ensures Stringify(v) == Stringify(w)
  {
    assert Stringify(v) == Left(v) + Join(Parts(v)) + Right(v);
    assert Stringify(w) == Left(w) + Join(Parts(w)) + Right(w);
  }

  lemma SameRest(left: string, t: string, u: string)
    requires left + t == left + u
    ensures t == u
  {
    assert (left + t)[|left|..] == t && (left + u)[|left|..] == u;
  }

  lemma FirstOf(texts: seq<string>, i: nat)
    requires i < |texts|
    ensures texts[i..] == [texts[i]] + texts[i + 1..]
  {
  }

  lemma FromEnds(texts: seq<string>, i: nat, rest: string)
    requires i <= |texts| && rest != "" && Ends(rest)
    ensures Ends(From(texts, i) + rest)
    ensures From(texts, i) + rest ==
      if i == |texts| then rest else "," + (texts[i] + (From(texts, i + 1) + rest))
  {
    if i < |texts| {
      var more := From(texts, i + 1);
      assert "," + (texts[i] + more) + rest == "," + (texts[i] + (more + rest));
    }
  }

  /** An empty container is not the beginning of another. */
  lemma NoParts(v: Json, x: string, w: Json, y: string)
    requires Plain(v) && Plain(w) && !Scalar(v) && !Scalar(w) && v.Array? == w.Array?
    requires Ends(x) && Ends(y) && Stringify(v) + x == Stringify(w) + y
    requires Parts(v) == [] || Parts(w) == []
    ensures Parts(v) == Parts(w)
  {
    TextOf(v, x);
    TextOf(w, y);
    if Parts(v) != [] {
      PartsBegin(v, x);
    }
    if Parts(w) != [] {
      PartsBegin(w, y);
    }
  }

  /** What follows the left bracket of a container with parts is not its right bracket. */
  lemma PartsBegin(v: Json, x: string)
    requires Plain(v) && !Scalar(v) && Parts(v) != [] && Ends(x)
    ensures |Stringify(v) + x| > 1 && (Stringify(v) + x)[1] != Right(v)[0]
  {
    TextOf(v, x);
    var parts, rest := Parts(v), Right(v) + x;
    FromEnds(parts, 1, rest);
    if v.Array? {
      StringifyAllAt(v.items);
      Begins(v.items[0], From(parts, 1) + rest);
    }
  }

  /** Two parts that stand at the same place of the same text are the same. */
  lemma {:induction false} PartEnds(v: Json, i: nat, x: string, w: Json, j: nat, y: string)
    requires Plain(v) && Plain(w) && !Scalar(v) && !Scalar(w) && v.Array? == w.Array?
    requires i < |Parts(v)| && j < |Parts(w)| && Ends(x) && Ends(y) && Parts(v)[i] + x == Parts(w)[j] + y
    ensures Parts(v)[i] == Parts(w)[j] && x == y
    decreases v, 0
  {
    if v.Array? {
      StringifyAllAt(v.items);
      StringifyAllAt(w.items);
      ValueEnds(v.items[i], x, w.items[j], y);
    } else {
      PlainIsProper(v);
      PlainIsProper(w);
      var m := SortedFrom(v.members, i);
      var n := SortedFrom(w.members, j);
      var p, q := Sorted(v.members)[i], Sorted(w.members)[j];
      assert Parts(v)[i] == Property(p.key, p.text) && Parts(w)[j] == Property(q.key, q.text);
      hide Property, Sorted;
      PropertyBegins(p, x, q, y);
      ValueEnds(v.members[m].value, x, w.members[n].value, y);
    }
  }

  lemma {:induction false} ListEnds(v: Json, i: nat, x: string, w: Json, j: nat, y: string)
    requires Plain(v) && Plain(w) && !Scalar(v) && !Scalar(w) && v.Array? == w.Array?
    requires x != "" && y != "" && Ends(x) && Ends(y) && x[0] != ',' && y[0] != ','
    requires i <= |Parts(v)| && j <= |Parts(w)| && From(Parts(v), i) + x == From(Parts(w), j) + y
    ensures Parts(v)[i..] == Parts(w)[j..]
    decreases v, 1, |Parts(v)| - i
  {
    var vs, ws := Parts(v), Parts(w);
    hide Plain, Parts, From;
    FromEnds(vs, i, x);
    FromEnds(ws, j, y);
    if i < |vs| && j < |ws| {
      hide *;
      FromEnds(vs, i + 1, x);
      FromEnds(ws, j + 1, y);
      var a, b := From(vs, i + 1) + x, From(ws, j + 1) + y;
      SameRest(",", vs[i] + a, ws[j] + b);
      PartEnds(v, i, a, w, j, b);
      ListEnds(v, i + 1, x, w, j + 1, y);
      FirstOf(vs, i);
      FirstOf(ws, j);
    }
  }

  /* ---- What the text decides ---- */

  lemma PropertyDecides(p: Pair, q: Pair)
    requires '"' !in p.key && '"' !in q.key && Property(p.key, p.text) == Property(q.key, q.text)
    ensures p == q
  {
    PropertyBegins(p, "", q, "");
    assert p.text + "" == p.text && q.text + "" == q.text;
  }

  lemma PairsDecide(ps: seq<Pair>, qs: seq<Pair>)
    requires Properties(ps) == Properties(qs)
    requires (forall k :: 0 <= k < |ps| ==> '"' !in ps[k].key) && (forall k :: 0 <= k < |qs| ==> '"' !in qs[k].key)
    ensures ps == qs
  {
    assert |Properties(ps)| == |ps| && |Properties(qs)| == |qs|;
    forall k | 0 <= k < |ps| ensures ps[k] == qs[k] {
      assert Properties(ps)[k] == Property(ps[k].key, ps[k].text);
      assert Properties(qs)[k] == Property(qs[k].key, qs[k].text);
      PropertyDecides(ps[k], qs[k]);
    }
  }

  lemma QuoteFree(v: Json)
    requires Plain(v) && v.Object?
    ensures forall k :: 0 <= k < |Sorted(v.members)| ==> '"' !in Sorted(v.members)[k].key
  {
    PlainIsProper(v);
    hide Sorted;
    forall k | 0 <= k < |Sorted(v.members)| ensures '"' !in Sorted(v.members)[k].key {
      var i := SortedFrom(v.members, k);
    }
  }

  /** Plain values with the same text are of one kind and have the same parts. */
  lemma PartsDecide(a: Json, b: Json)
    requires Plain(a) && Plain(b) && Stringify(a) == Stringify(b)
    ensures a.Array? == b.Array? && a.Object? == b.Object?
    ensures !Scalar(a) ==> Parts(a) == Parts(b)
  {
    assert Stringify(a) + "" == Stringify(a) && Stringify(b) + "" == Stringify(b);
    Begins(a, "");
    Begins(b, "");
    if !Scalar(a) {
      ContainerEnds(a, "", b, "");
    }
  }

  lemma ArraysDecide(a: Json, b: Json)
    requires a.Array? && b.Array? && Plain(a) && Plain(b) && Stringify(a) == Stringify(b)
    ensures |a.items| == |b.items| && forall i :: 0 <= i < |a.items| ==> Stringify(a.items[i]) == Stringify(b.items[i])
  {
    PartsDecide(a, b);
    StringifyAllAt(a.items);
    StringifyAllAt(b.items);
  }

  lemma ObjectsDecide(a: Json, b: Json)
    requires a.Object? && b.Object? && Plain(a) && Plain(b) && Stringify(a) == Stringify(b)
    ensures Elements(Render(a.members)) == Elements(Render(b.members))
  {
    PartsDecide(a, b);
    QuoteFree(a);
    QuoteFree(b);
    PlainIsProper(a);
    PlainIsProper(b);
    Distinct(a.members);
    Distinct(b.members);
    SortSorts(Render(a.members));
    SortSorts(Render(b.members));
    hide Stringify, Plain, Proper, Render, Sort;
    PairsDecide(Sorted(a.members), Sorted(b.members));
  }

  /** The text of a plain body determines it, up to member order and what scalars print. */
  lemma {:induction false} TextDetermines(a: Json, b: Json)
    requires Plain(a) && Plain(b) && Stringify(a) == Stringify(b)
    ensures Same(PrintAlike, a, b)
    decreases a, 2
  {
    PartsDecide(a, b);
    if a.Array? {
      ArraysDecide(a, b);
      forall i | 0 <= i < |a.items| ensures Same(PrintAlike, a.items[i], b.items[i]) {
        TextDetermines(a.items[i], b.items[i]);
      }
    } else if a.Object? {
      ObjectsDecide(a, b);
      forall i | 0 <= i < |a.members| ensures Matched(PrintAlike, a.members[i], b.members) {
        MatchedThere(a, b, i);
      }
      forall j | 0 <= j < |b.members| ensures MatchedBack(PrintAlike, b.members[j], a.members) {
        MatchedHere(a, b, j);
      }
    }
  }

  lemma {:induction false} MatchedThere(a: Json, b: Json, i: nat)
    requires a.Object? && b.Object? && Plain(a) && Plain(b) && i < |a.members|
    requires Elements(Render(a.members)) == Elements(Render(b.members))
    ensures Matched(PrintAlike, a.members[i], b.members)
    decreases a, 0
  {
    RenderAt(a.members);
    RenderAt(b.members);
    var p := Render(a.members)[i];
    assert p in Elements(Render(b.members));
    var j :| 0 <= j < |b.members| && Render(b.members)[j] == p;
    TextDetermines(a.members[i].value, b.members[j].value);
  }

  lemma {:induction false} MatchedHere(a: Json, b: Json, j: nat)
    requires a.Object? && b.Object? && Plain(a) && Plain(b) && j < |b.members|
    requires Elements(Render(a.members)) == Elements(Render(b.members))
    ensures MatchedBack(PrintAlike, b.members[j], a.members)
    decreases a, 0
  {
    RenderAt(a.members);
    RenderAt(b.members);
    var p := Render(b.members)[j];
    assert p in Elements(Render(a.members));
    var i :| 0 <= i < |a.members| && Render(a.members)[i] == p;
    TextDetermines(a.members[i].value, b.members[j].value);
  }

  /** Plain bodies have the same text exactly when they agree up to member order and what their scalars
      print. */
  lemma TextDecides(a: Json, b: Json)
    requires Plain(a) && Plain(b)
    ensures Stringify(a) == Stringify(b) <==> Same(PrintAlike, a, b)
  {
    if Stringify(a) == Stringify(b) {
      TextDetermines(a, b);
    }
    if Same(PrintAlike, a, b) {
      PlainIsProper(a);
      PlainIsProper(b);
      KeyOrderInvariant(PrintAlike, a, b);
    }
  }

  /** Plain cannot do without its clauses on what scalars print (for commas, TextIsNotInjective), on quotes
      in keys, and on single items that print as nothing. */
  lemma PlainIsNeeded(k: string, t: string, u: string)
    ensures Stringify(Array([Null])) == Stringify(Array([]))
    ensures Stringify(Array([Text(t)])) == Stringify(Text("[" + t + "]"))
    ensures Stringify(Object([])) == Stringify(Text("{}"))
    ensures Stringify(Object([Member(k + "\":" + t, Text(u))])) == Stringify(Object([Member(k, Text(t + "\":" + u))]))
  {
    OneItem(Null);
    OneItem(Text(t));
    OneProperty(k + "\":" + t, Text(u));
    OneProperty(k, Text(t + "\":" + u));
    var quote := "\"";
    assert quote + (k + "\":" + t) + "\":" + u == quote + k + "\":" + (t + "\":" + u);
  }

  lemma OneItem(v: Json)
    ensures Stringify(Array([v])) == "[" + Stringify(v) + "]"
  {
    StringifyAllAt([v]);
    assert StringifyAll([v]) == [Stringify(v)];
  }

  /** So, where the digest tells the two texts apart, a key reused with a plain body is refused with 422
      exactly when the body has changed in more than member order and what its scalars print. */
  lemma ChangedTextMismatches(record: L.Record, first: Json, retry: Json, digest: string -> string)
    requires record.requestHash == Generate(first, digest) && Plain(first) && Plain(retry)
    requires Stringify(first) != Stringify(retry) ==> digest(Stringify(first)) != digest(Stringify(retry))
    ensures I.Judge(record, Generate(retry, digest)).Mismatch? <==> !Same(PrintAlike, first, retry)
  {
    TextDecides(first, retry);
  }

  /** A number changed to the string it prints, or back, is not refused, whatever the digest. */
  lemma TypeChangePasses(record: L.Record, key: string, numeral: string, digest: string -> string)
    requires record.requestHash == Generate(Object([Member(key, Number(numeral))]), digest)
    ensures !I.Judge(record, Generate(Object([Member(key, Text(numeral))]), digest)).Mismatch?
  {
    OneProperty(key, Number(numeral));
    OneProperty(key, Text(numeral));
  }

  /* ---- Bodies whose scalars tell their type ---- */

  function Digits(s: string): (n: nat)
    ensures n <= |s|
  {
    if |s| == 0 || !('0' <= s[0] <= '9') then 0 else 1 + Digits(s[1..])
  }

  predicate Exponent(s: string) {
    s == "" || (|s| >= 3 && s[0] == 'e' && (s[1] == '+' || s[1] == '-') && Digits(s[2..]) == |s| - 2)
  }

  predicate Fraction(s: string) {
    Exponent(s) || (|s| > 1 && s[0] == '.' && Digits(s[1..]) > 0 && Exponent(s[1..][Digits(s[1..])..]))
  }

  /** The forms String gives a number. */
  predicate Numeral(s: string) {
    || s == "NaN" || s == "Infinity" || s == "-Infinity"
    || var unsigned := if s != "" && s[0] == '-' then s[1..] else s;
       Digits(unsigned) > 0 && Fraction(unsigned[Digits(unsigned)..])
  }

  lemma WordsAreNoNumerals()
    ensures !Numeral("true") && !Numeral("false") && !Numeral("")
  {
  }

  /** No string reads as a number, a boolean or nothing, and of null and undefined only `empty` is used:
      null, as in any body that was parsed from JSON. Number texts are numerals by nature. */
  ghost predicate Telling(empty: Json, v: Json)
    decreases v
  {
    match v
    case Undefined => empty.Undefined?
    case Null => empty.Null?
    case Bool(_) => true
    case Number(text) => Numeral(text)
    case Text(s) => s != "" && s != "true" && s != "false" && !Numeral(s)
    case Array(items) => forall i :: 0 <= i < |items| ==> Telling(empty, items[i])
    case Object(members) => forall i :: 0 <= i < |members| ==> Telling(empty, members[i].value)
  }

  /** Telling bodies that agree in what their scalars print agree in their scalars. */
  lemma {:induction false} TellingApart(empty: Json, a: Json, b: Json)
    requires Telling(empty, a) && Telling(empty, b) && Same(PrintAlike, a, b)
    ensures Same(Equal, a, b)
    decreases a, 1
  {
    if a.Array? {
      forall i | 0 <= i < |a.items| ensures Same(Equal, a.items[i], b.items[i]) {
        TellingApart(empty, a.items[i], b.items[i]);
      }
    } else if a.Object? {
      forall i | 0 <= i < |a.members| ensures Matched(Equal, a.members[i], b.members) {
        var j := Counterpart(PrintAlike, a.members, b.members, i);
        TellingApart(empty, a.members[i].value, b.members[j].value);
      }
      forall j | 0 <= j < |b.members| ensures MatchedBack(Equal, b.members[j], a.members) {
        var i := CounterpartBack(PrintAlike, a.members, b.members, j);
        TellingApart(empty, a.members[i].value, b.members[j].value);
      }
    } else {
      WordsAreNoNumerals();
      hide Numeral;
    }
  }

  /** Plain and telling bodies have the same text exactly when they are the same value. */
  lemma TextDecidesValue(empty: Json, a: Json, b: Json)
    requires Plain(a) && Plain(b) && Telling(empty, a) && Telling(empty, b)
    ensures Stringify(a) == Stringify(b) <==> Same(Equal, a, b)
  {
    if Stringify(a) == Stringify(b) {
      TextDetermines(a, b);
      TellingApart(empty, a, b);
    }
    if Same(Equal, a, b) {
      PlainIsProper(a);
      PlainIsProper(b);
      KeyOrderInvariant(Equal, a, b);
    }
  }

  /** For such bodies a reused key is refused with 422 exactly when the body has changed. */
  lemma ChangedBodyMismatches(record: L.Record, empty: Json, first: Json, retry: Json, digest: string -> string)
    requires record.requestHash == Generate(first, digest)
    requires Plain(first) && Plain(retry) && Telling(empty, first) && Telling(empty, retry)
    requires Stringify(first) != Stringify(retry) ==> digest(Stringify(first)) != digest(Stringify(retry))
    ensures I.Judge(record, Generate(retry, digest)).Mismatch? <==> !Same(Equal, first, retry)
  {
    TextDecidesValue(empty, first, retry);
  }
}
