/** The textual cache key of a reduced call: the bare method name when the
    call has no arguments, otherwise the name and the decimal text of each
    reduced argument, all joined by commas. */
module CacheKeys {
  import opened Arith
  import opened Decimal

  /** `string.Join(",", parts)`. */
  function Join(parts: seq<string>): string {
    if |parts| == 0 then ""
    else if |parts| == 1 then parts[0]
    else parts[0] + "," + Join(parts[1..])
  }

  /** The pieces of a string between its commas (the inverse of Join). */
  function Split(s: string): (parts: seq<string>)
    ensures |parts| >= 1
  {
    if s == [] then [""]
    else
      var rest := Split(s[1..]);
      if s[0] == ',' then [""] + rest else [[s[0]] + rest[0]] + rest[1..]
  }

  /** The text of each reduced argument, in order. */
  function Render(args: seq<int32>): (texts: seq<string>)
    ensures |texts| == |args|
    ensures forall i :: 0 <= i < |args| ==> texts[i] == IntToString(args[i])
  {
    if args == [] then [] else [IntToString(args[0])] + Render(args[1..])
  }

  function ParseAll(texts: seq<string>): (values: seq<int>)
    ensures |values| == |texts|
  {
    if texts == [] then [] else [ParseInt(texts[0])] + ParseAll(texts[1..])
  }

  /** The key under which a call of `name` with the reduced `args` is cached. */
  function CacheKey(name: string, args: seq<int32>): (key: string)
    ensures |name| <= |key| && key[..|name|] == name
    ensures |args| == 0 <==> key == name
    ensures |args| > 0 ==> |key| > |name| + 1 && key[|name|] == ','
  {
    if |args| == 0 then name else name + "," + Join(Render(args))
  }

  /** Recovers the method name and the argument values from a key. */
  function ParseCacheKey(key: string): (string, seq<int>) {
    var parts := Split(key);
    (parts[0], ParseAll(parts[1..]))
  }

  predicate NoComma(parts: seq<string>) {
    forall i :: 0 <= i < |parts| ==> ',' !in parts[i]
  }

  lemma {:induction false} SplitWithoutComma(p: string)
    requires ',' !in p
    ensures Split(p) == [p]
  {
    if p != [] {
      SplitWithoutComma(p[1..]);
      assert [p[0]] + p[1..] == p;
    }
  }

  lemma {:induction false} SplitAtComma(p: string, t: string)
    requires ',' !in p
    ensures Split(p + "," + t) == [p] + Split(t)
  {
    var s := p + "," + t;
    if p == [] {
      assert s[0] == ',' && s[1..] == t;
    } else {
      assert s[1..] == p[1..] + "," + t;
      SplitAtComma(p[1..], t);
      assert [p[0]] + p[1..] == p;
    }
  }

  /** Splitting a comma-joined list of comma-free pieces gives the pieces back. */
  lemma {:induction false} SplitJoin(parts: seq<string>)
    requires |parts| >= 1 && NoComma(parts)
    ensures Split(Join(parts)) == parts
  {
    if |parts| == 1 {
      SplitWithoutComma(parts[0]);
    } else {
      assert NoComma(parts[1..]) by {
        forall i | 0 <= i < |parts| - 1 ensures ',' !in parts[1..][i] {
          assert parts[1..][i] == parts[i + 1];
        }
      }
      SplitJoin(parts[1..]);
      SplitAtComma(parts[0], Join(parts[1..]));
      assert [parts[0]] + parts[1..] == parts;
    }
  }

  lemma {:induction false} ParseAllRender(args: seq<int32>)
    ensures ParseAll(Render(args)) == args
  {
    if args != [] {
      var texts := Render(args);
      assert texts[1..] == Render(args[1..]);
      ParseAllRender(args[1..]);
      ParseIntToString(args[0]);
      assert [args[0]] + args[1..] == args;
    }
  }

  /** Every key is the comma join of the name and the argument texts. */
  lemma KeyIsJoin(name: string, args: seq<int32>)
    ensures CacheKey(name, args) == Join([name] + Render(args))
  {
    var parts := [name] + Render(args);
    if |args| > 0 {
      assert parts[1..] == Render(args);
    }
  }

  /** A key made from a comma-free method name can be read back into that
      name and the reduced arguments. */
  lemma CacheKeyRoundTrip(name: string, args: seq<int32>)
    requires ',' !in name
    ensures ParseCacheKey(CacheKey(name, args)) == (name, args)
  {
    var parts := [name] + Render(args);
    assert NoComma(parts) by {
      forall i | 0 <= i < |parts| ensures ',' !in parts[i] {
        if i > 0 { assert parts[i] == IntToString(args[i - 1]); }
      }
    }
    KeyIsJoin(name, args);
    SplitJoin(parts);
    assert parts[1..] == Render(args);
    ParseAllRender(args);
  }

  /** Two calls share a key exactly when they have the same method name and
      the same reduced arguments (method names never contain a comma). */
  lemma CacheKeyInjective(name1: string, args1: seq<int32>, name2: string, args2: seq<int32>)
    requires ',' !in name1 && ',' !in name2
    ensures CacheKey(name1, args1) == CacheKey(name2, args2) <==> name1 == name2 && args1 == args2
  {
    CacheKeyRoundTrip(name1, args1);
    CacheKeyRoundTrip(name2, args2);
  }

  /** Without the comma-free name, distinct calls can share a key. */
  lemma CommaInNameCollides()
    ensures CacheKey("B,4", []) == CacheKey("B", [4])
  {
    assert Render([4]) == ["4"];
  }
}
