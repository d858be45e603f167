/** What an argument stands for, and how its value gets to a command. */
module Arguments {
  import opened Text
  import opened Syntax
  import opened Promises
  import opened Semantics
  import Commands

  function Concat(vs: seq<string>): string {
    if vs == [] then "" else vs[0] + Concat(vs[1..])
  }

  /** v is what a stands for, inside a call with these arguments and with these variables. */
  ghost predicate Stands(h: Host, a: Arg, args: seq<string>, vars: Vars, v: string)
    decreases a
  {
    match a
    case Constant(text) => v == text
    case ArgGetter(i) => i >= 0 && v == if i < |args| then args[i] else ""
    case EnvGetter(name) => v == h.getenv(name)
    case VarGetter(name) => if name in vars then v == vars[name] else v == "missing"
    case Join(parts) =>
      exists vs: seq<string> :: |vs| == |parts| && v == Concat(vs) &&
                                forall i :: 0 <= i < |parts| ==> Stands(h, parts[i], args, vars, vs[i])
    case NoArg => false
  }

  /** The value of an argument is what it stands for. It has none, and a promise that asks for
      it panics, if and only if it stands for nothing. */
  lemma {:induction false} StandsIff(h: Host, a: Arg, args: seq<string>, vars: Vars, v: string)
    ensures GetValue(h, a, args, vars) == Got(v) <==> Stands(h, a, args, vars, v)
    decreases a, 1
  {
    if a.Join? {
      if GetValue(h, a, args, vars) == Got(v) {
        var vs := JoinStands(h, a.parts, args, vars);
        assert |vs| == |a.parts| && v == Concat(vs);
      }
      if Stands(h, a, args, vars, v) {
        var vs: seq<string> :| |vs| == |a.parts| && v == Concat(vs) &&
                               forall i :: 0 <= i < |a.parts| ==> Stands(h, a.parts[i], args, vars, vs[i]);
        JoinHasValue(h, a.parts, args, vars, vs);
      }
    }
  }

  lemma {:induction false} JoinStands(h: Host, parts: seq<Arg>, args: seq<string>, vars: Vars) returns (vs: seq<string>)
    requires JoinValues(h, parts, args, vars).Got?
    ensures |vs| == |parts| && JoinValues(h, parts, args, vars) == Got(Concat(vs))
    ensures forall i :: 0 <= i < |parts| ==> Stands(h, parts[i], args, vars, vs[i])
    decreases parts, 0
  {
    if parts == [] {
      vs := [];
    } else {
      var v := GetValue(h, parts[0], args, vars).value;
      StandsIff(h, parts[0], args, vars, v);
      var rest := JoinStands(h, parts[1..], args, vars);
      vs := [v] + rest;
      assert vs[1..] == rest;
      forall i | 0 <= i < |parts| ensures Stands(h, parts[i], args, vars, vs[i]) {
        if i > 0 {
          assert parts[i] == parts[1..][i - 1] && vs[i] == rest[i - 1];
        }
      }
    }
  }

  lemma {:induction false} JoinHasValue(h: Host, parts: seq<Arg>, args: seq<string>, vars: Vars, vs: seq<string>)
    requires |vs| == |parts| && forall i :: 0 <= i < |parts| ==> Stands(h, parts[i], args, vars, vs[i])
    ensures JoinValues(h, parts, args, vars) == Got(Concat(vs))
    decreases parts, 0
  {
    if parts != [] {
      StandsIff(h, parts[0], args, vars, vs[0]);
      forall i | 0 <= i < |parts| - 1 ensures Stands(h, parts[1..][i], args, vars, vs[1..][i]) {
        assert parts[1..][i] == parts[i + 1] && vs[1..][i] == vs[i + 1];
      }
      JoinHasValue(h, parts[1..], args, vars, vs[1..]);
    }
  }

  /** The value of a joiner of more parts is that of the first of them and then that of the others. */
  lemma {:induction false} JoinAppends(h: Host, a: seq<Arg>, b: seq<Arg>, args: seq<string>, vars: Vars)
    ensures var x, y := GetValue(h, Join(a), args, vars), GetValue(h, Join(b), args, vars);
            x.Got? && y.Got? ==> GetValue(h, Join(a + b), args, vars) == Got(x.value + y.value)
    decreases |a|
  {
    if a == [] {
      assert a + b == b;
      var y := GetValue(h, Join(b), args, vars);
      if y.Got? {
        assert "" + y.value == y.value;
      }
    } else {
      assert (a + b)[1..] == a[1..] + b && (a + b)[0] == a[0];
      JoinAppends(h, a[1..], b, args, vars);
      var v := GetValue(h, a[0], args, vars);
      var rest, y := GetValue(h, Join(a[1..]), args, vars), GetValue(h, Join(b), args, vars);
      if v.Got? && rest.Got? && y.Got? {
        assert v.value + (rest.value + y.value) == (v.value + rest.value) + y.value;
      }
    }
  }

  lemma JoinOne(h: Host, p: Arg, args: seq<string>, vars: Vars)
    ensures GetValue(h, Join([p]), args, vars) == GetValue(h, p, args, vars)
  {
    assert [p][1..] == [];
    assert JoinValues(h, [], args, vars) == Got("");
    var v := GetValue(h, p, args, vars);
    if v.Got? {
      assert v.value + "" == v.value;
    }
  }

  /** The arguments that have no value: nil, negative positions, and joiners of such. */
  predicate Breaks(a: Arg)
    decreases a
  {
    match a
    case ArgGetter(i) => i < 0
    case Join(parts) => exists p :: p in parts && Breaks(p)
    case NoArg => true
    case _ => false
  }

  lemma {:induction false} BreaksIff(h: Host, a: Arg, args: seq<string>, vars: Vars)
    ensures GetValue(h, a, args, vars).Broke? <==> Breaks(a)
    decreases a, 1
  {
    if a.Join? {
      JoinBreaksIff(h, a.parts, args, vars);
    }
  }

  lemma {:induction false} JoinBreaksIff(h: Host, parts: seq<Arg>, args: seq<string>, vars: Vars)
    ensures JoinValues(h, parts, args, vars).Broke? <==> exists p :: p in parts && Breaks(p)
    decreases parts, 0
  {
    if parts != [] {
      BreaksIff(h, parts[0], args, vars);
      JoinBreaksIff(h, parts[1..], args, vars);
      assert parts[0] in parts && forall p :: p in parts <==> p == parts[0] || p in parts[1..];
    }
  }

  /** Trimming cuts off the white space at both ends and nothing else. */
  lemma TrimSpaceIs(left: string, s: string, right: string)
    requires Blank(left) && Blank(right) && (s == "" || (!IsSpace(s[0]) && !IsSpace(s[|s| - 1])))
    ensures TrimSpace(left + s + right) == s
  {
    var t := left + s + right;
    if s == "" {
      assert Blank(t);
    } else {
      var a, b := |left|, |left| + |s|;
      assert t[a] == s[0] && t[b - 1] == s[|s| - 1];
      assert forall j :: 0 <= j < a ==> t[j] == left[j];
      assert forall j :: b <= j < |t| ==> t[j] == right[j - b];
      SkipSpaceIs(t, 0, a);
      TrimBackIs(t, |t|, b);
      assert t[a..b] == s;
    }
  }
}
