/** `cx`: the page's class-name joiner. */
module ClassNames {
  import opened Text
  import opened Sequences

  /** An argument of `cx`: a class string, or `false`, `null` or `undefined`. */
  datatype ClassArg = Cls(name: string) | Falsy

  /** JavaScript truthiness of an argument: a non-empty string. */
  predicate Truthy(a: ClassArg) {
    a.Cls? && a.name != ""
  }

  /** Each argument's class string, with the empty string for a falsy one. */
  ghost function Names(args: seq<ClassArg>): seq<string> {
    seq(|args|, i requires 0 <= i < |args| => if args[i].Cls? then args[i].name else "")
  }

  /**
   * `classes.filter(Boolean)`: the truthy arguments' strings, each as often as
   * it was passed, and nothing else (in their order: `KeptInOrder`).
   */
  function Kept(args: seq<ClassArg>): (r: seq<string>)
    ensures forall s :: multiset(r)[s] == if s == "" then 0 else multiset(args)[Cls(s)]
    ensures |r| <= |args|
  {
    if args == [] then []
    else
      var rest := Kept(args[1..]);
      assert multiset(args) == multiset{args[0]} + multiset(args[1..]) by {
        assert args == [args[0]] + args[1..];
      }
      if Truthy(args[0]) then
        assert multiset([args[0].name] + rest) == multiset{args[0].name} + multiset(rest);
        [args[0].name] + rest
      else rest
  }

  /** A string is kept exactly when it is the class string of a truthy argument. */
  lemma KeptMembers(args: seq<ClassArg>)
    ensures forall s :: s in Kept(args) <==> s != [] && Cls(s) in args
  {
    var r := Kept(args);
    forall s ensures s in r <==> s != [] && Cls(s) in args {
      assert s in r <==> multiset(r)[s] > 0;
      assert Cls(s) in args <==> multiset(args)[Cls(s)] > 0;
    }
  }

  /** The kept strings come in the order of their arguments. */
  lemma {:induction false} KeptInOrder(args: seq<ClassArg>)
    ensures IsSubsequence(Kept(args), Names(args))
    decreases |args|
  {
    if args != [] {
      KeptInOrder(args[1..]);
      var rest := Kept(args[1..]);
      assert Names(args)[1..] == Names(args[1..]);
      if Truthy(args[0]) {
        assert Kept(args) == [args[0].name] + rest;
        assert Kept(args)[1..] == rest;
      }
    }
  }

  /** `parts.join(" ")`: every part, with one space between neighbours. */
  function JoinWithSpaces(parts: seq<string>): (r: string)
    ensures parts != [] ==> parts[0] <= r
    ensures |parts| == 1 ==> r == parts[0]
    ensures |r| == if parts == [] then 0 else TotalLength(parts) + |parts| - 1
  {
    if parts == [] then ""
    else if |parts| == 1 then parts[0]
    else parts[0] + " " + JoinWithSpaces(parts[1..])
  }

  /**
   * Joining two non-empty lists is joining each and putting one space between:
   * with the single-part case, this fixes the joined string.
   */
  lemma {:induction false} JoinOfAppend(a: seq<string>, b: seq<string>)
    requires a != [] && b != []
    ensures JoinWithSpaces(a + b) == JoinWithSpaces(a) + " " + JoinWithSpaces(b)
    decreases |a|
  {
    assert (a + b)[0] == a[0];
    if |a| == 1 {
      assert (a + b)[1..] == b;
    } else {
      assert (a + b)[1..] == a[1..] + b;
      JoinOfAppend(a[1..], b);
    }
  }

  /** `cx(…)`: the truthy class strings joined by spaces; empty exactly when no argument is truthy. */
  function Cx(args: seq<ClassArg>): (r: string)
    ensures r == "" <==> forall a :: a in args ==> !Truthy(a)
  {
    var parts := Kept(args);
    KeptMembers(args);
    assert parts != [] ==> parts[0] in parts;
    assert forall a :: a in args && Truthy(a) ==> a.name in parts;
    JoinWithSpaces(parts)
  }
}
