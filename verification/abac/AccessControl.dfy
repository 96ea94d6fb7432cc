/** Attribute-based access control: a policy is evaluated in an environment that holds the
    authenticated attributes of an identity. */
module AccessControl {
  import opened Options
  import opened Exprs
  import opened Compare
  import opened Semantics
  import opened Evaluator

  /** A stored attribute; its value is bytes, and `None` where they are not UTF-8. */
  datatype Attr = Attr(key: string, text: Option<string>)

  /** What the repository holds for an identity, in key order. */
  datatype Lookup = Missing | Found(attrs: seq<Attr>) | Unavailable

  function Subject(key: string): string {
    "subject." + key
  }

  // ----- Populating the environment -----

  /** One attribute: a key that is bound already, unprefixed, is skipped. */
  function Put(env: Env, a: Attr): Env {
    if a.text.Some? && a.key !in env then env[Subject(a.key) := Str(a.text.value)] else env
  }

  function Populate(base: Env, attrs: seq<Attr>): Env {
    if attrs == [] then base else Put(Populate(base, attrs[..|attrs| - 1]), attrs[|attrs| - 1])
  }

  function Environment(base: Env, id: string, found: Lookup): Env {
    Populate(base, if found.Found? then found.attrs else [])[Subject("identifier") := Str(id)]
  }

  /** Only a policy that evaluates to true authorizes. */
  function Granted(o: Outcome<Expr>): bool {
    o == Done(Bool(true))
  }

  method IsIdentityAuthorized(policy: Expr, base: Env, id: string, found: Lookup, ghost d: nat)
      returns (r: Option<bool>)
    requires Eval(policy, Environment(base, id, found), d) != Deep
    ensures r == if found == Unavailable then None
                 else Some(Granted(Eval(policy, Environment(base, id, found), d)))
    ensures r == None <==> found == Unavailable
    ensures r == Some(true) <==>
            found != Unavailable && Eval(policy, Environment(base, id, found), d) == Done(Bool(true))
  {
    if found == Unavailable {
      return None;
    }
    var env := base;
    if found.Found? {
      env := PutAll(env, found.attrs);
    }
    env := env[Subject("identifier") := Str(id)];
    var answer := Evaluate(policy, env, d);
    return Some(answer == Ok(Bool(true)));
  }

  method PutAll(base: Env, attrs: seq<Attr>) returns (env: Env)
    ensures env == Populate(base, attrs)
  {
    env := base;
    var done: seq<Attr>, rest := [], attrs;
    while rest != []
      invariant done + rest == attrs
      invariant env == Populate(base, done)
      decreases |rest|
    {
      var a := rest[0];
      assert (done + [a])[..|done|] == done;
      if a.text.Some? && a.key !in env {
        env := env[Subject(a.key) := Str(a.text.value)];
      }
      done, rest := done + [a], rest[1..];
    }
    assert done == attrs;
  }

  // ----- What the environment holds -----

  /** The attribute at `i` finds its unprefixed key bound: in the given environment, or by an
      earlier attribute that was stored under exactly that key. */
  predicate Blocked(base: Env, attrs: seq<Attr>, i: nat)
    requires i < |attrs|
    decreases i, 0
  {
    || attrs[i].key in base
    || exists j :: 0 <= j < i && Subject(attrs[j].key) == attrs[i].key && Stored(base, attrs, j)
  }

  predicate Stored(base: Env, attrs: seq<Attr>, i: nat)
    requires i < |attrs|
    decreases i, 1
  {
    attrs[i].text.Some? && !Blocked(base, attrs, i)
  }

  predicate DistinctKeys(attrs: seq<Attr>) {
    forall i, j :: 0 <= i < j < |attrs| ==> attrs[i].key != attrs[j].key
  }

  lemma SubjectIsInjective(a: string, b: string)
    ensures Subject(a) == Subject(b) ==> a == b
  {
    assert Subject(a)[8..] == a && Subject(b)[8..] == b;
  }

  /** Whether an attribute is stored depends only on those before it. */
  lemma {:induction false} StoredInPrefix(base: Env, attrs: seq<Attr>, n: nat, i: nat)
    requires i < n <= |attrs|
    ensures Stored(base, attrs[..n], i) == Stored(base, attrs, i)
    decreases i
  {
    forall j | 0 <= j < i ensures Stored(base, attrs[..n], j) == Stored(base, attrs, j) {
      StoredInPrefix(base, attrs, n, j);
    }
    assert Blocked(base, attrs[..n], i) == Blocked(base, attrs, i);
  }

  /** The bindings after populating are exactly the given ones and the stored attributes, and the
      stored attributes win. */
  lemma {:induction false} PopulatedExactly(base: Env, attrs: seq<Attr>, k: string)
    requires DistinctKeys(attrs)
    ensures forall i :: 0 <= i < |attrs| && Stored(base, attrs, i) && Subject(attrs[i].key) == k ==>
              k in Populate(base, attrs) && Populate(base, attrs)[k] == Str(attrs[i].text.value)
    ensures (forall i :: 0 <= i < |attrs| && Stored(base, attrs, i) ==> Subject(attrs[i].key) != k) ==>
              (k in Populate(base, attrs) <==> k in base)
              && (k in base ==> Populate(base, attrs)[k] == base[k])
    decreases |attrs|, 1
  {
    if attrs != [] {
      var n := |attrs| - 1;
      var front, last := attrs[..n], attrs[n];
      PopulatedExactly(base, front, k);
      LastStored(base, attrs);
      forall i | 0 <= i < n ensures Stored(base, front, i) == Stored(base, attrs, i) {
        StoredInPrefix(base, attrs, n, i);
      }
      forall i | 0 <= i < n && Subject(attrs[i].key) == k ensures Subject(last.key) != k {
        SubjectIsInjective(attrs[i].key, last.key);
      }
    }
  }

  /** The last attribute is stored exactly when its key is not bound yet. */
  lemma {:induction false} LastStored(base: Env, attrs: seq<Attr>)
    requires attrs != [] && DistinctKeys(attrs)
    ensures var n := |attrs| - 1;
            Stored(base, attrs, n) <==> attrs[n].text.Some? && attrs[n].key !in Populate(base, attrs[..n])
    decreases |attrs|, 0
  {
    var n := |attrs| - 1;
    PopulatedExactly(base, attrs[..n], attrs[n].key);
    forall i | 0 <= i < n ensures Stored(base, attrs[..n], i) == Stored(base, attrs, i) {
      StoredInPrefix(base, attrs, n, i);
    }
  }

  /** Whatever the attributes are, the identifier is bound to the identity and no binding outside
      the "subject." names changes. */
  lemma {:induction false} EnvironmentIsSafe(base: Env, id: string, attrs: seq<Attr>)
    ensures var env := Environment(base, id, Found(attrs));
            && env[Subject("identifier")] == Str(id)
            && (forall k :: k in base && !("subject." <= k) ==> k in env && env[k] == base[k])
            && (forall k :: k in env && !("subject." <= k) ==> k in base)
  {
    if attrs != [] {
      EnvironmentIsSafe(base, id, attrs[..|attrs| - 1]);
      assert forall key :: "subject." <= Subject(key);
    }
  }

  /** An identity that has no attributes stored is known by its identifier alone. */
  lemma WithoutAttributes(base: Env, id: string)
    ensures Environment(base, id, Missing) == base["subject.identifier" := Str(id)]
    ensures Environment(base, id, Found([])) == Environment(base, id, Missing)
  {
    assert Subject("identifier") == "subject.identifier";
  }

  // ----- The policy that compares one attribute -----

  function AttributePolicy(name: string, value: string): Expr {
    List([Ident("="), Ident(Subject(name)), Str(value)])
  }

  lemma StringsAreSame(a: string, b: string)
    ensures Same(Str(a), Str(b)) == Ok(a == b)
  {
    StringsEqual(a, b);
  }

  /** `=` on a name and a text looks the name up and compares. */
  lemma AttributePolicyMeans(name: string, value: string, env: Env, d: nat)
    requires d > 0
    requires Subject(name) in env ==> env[Subject(name)].Str?
    ensures Granted(Eval(AttributePolicy(name, value), env, d)) <==>
            Subject(name) in env && env[Subject(name)] == Str(value)
    ensures Eval(AttributePolicy(name, value), env, d) != Deep
  {
    var x, y := Ident(Subject(name)), Str(value);
    var xs := [Ident("="), x, y];
    assert xs[1..] == [x, y];
    assert FormOf("=") == Plain && CheckStrict("=", 2) == Ok(OpRelation(Eq));
    assert Eval(List(xs), env, d) == Apply("=", [x, y], env, d);
    BothArguments(x, y, env, d);
    if Subject(name) in env {
      var t := env[Subject(name)];
      assert Eval(x, env, d) == Eval(t, env, d - 1) == Done(t);
      StringsAreSame(t.text, value);
      assert [t, y][1..] == [y];
      assert Chain(Eq, [t, y]) == Same(t, y);
    }
  }

  lemma BothArguments(x: Expr, y: Expr, env: Env, d: nat)
    ensures Eval(x, env, d).Done? && Eval(y, env, d).Done? ==>
              EvalAll([x, y], env, d) == Done([Eval(x, env, d).value, Eval(y, env, d).value])
    ensures Eval(x, env, d).Failed? ==> EvalAll([x, y], env, d) == Failed(Eval(x, env, d).error)
  {
    assert [x, y][1..] == [y] && [y][1..] == [];
    if Eval(x, env, d).Done? && Eval(y, env, d).Done? {
      var v, w := Eval(x, env, d).value, Eval(y, env, d).value;
      assert EvalAll([y][1..], env, d) == Done([]);
      assert EvalAll([y], env, d) == Done([w] + []);
      assert [v] + [w] == [v, w] && [w] + [] == [w];
    }
  }

  /** The access control made for an attribute name and value authorizes exactly the identities
      whose stored attribute has that name and is that text, and was not skipped.  The name
      "identifier" stands for the identity itself. */
  lemma CreateAuthorizes(name: string, value: string, id: string, attrs: seq<Attr>, d: nat)
    requires DistinctKeys(attrs) && d > 0
    ensures Granted(Eval(AttributePolicy(name, value), Environment(map[], id, Found(attrs)), d)) <==>
            if name == "identifier" then id == value
            else exists i :: 0 <= i < |attrs| && attrs[i] == Attr(name, Some(value)) && !Blocked(map[], attrs, i)
  {
    var env := Environment(map[], id, Found(attrs));
    var k := Subject(name);
    SubjectIsInjective(name, "identifier");
    PopulatedExactly(map[], attrs, k);
    if name != "identifier" {
      if i :| 0 <= i < |attrs| && Stored(map[], attrs, i) && Subject(attrs[i].key) == k {
        SubjectIsInjective(attrs[i].key, name);
        AttributePolicyMeans(name, value, env, d);
        forall j | 0 <= j < |attrs| && attrs[j].key == name ensures i == j {}
      } else {
        AttributePolicyMeans(name, value, env, d);
        forall j | 0 <= j < |attrs| && attrs[j] == Attr(name, Some(value)) ensures Blocked(map[], attrs, j) {
          assert Stored(map[], attrs, j) || Blocked(map[], attrs, j);
        }
      }
    } else {
      AttributePolicyMeans(name, value, env, d);
    }
  }

  /** A name outside "subject." is never skipped. */
  lemma PlainNamesAreNotBlocked(attrs: seq<Attr>, i: nat)
    requires i < |attrs| && !("subject." <= attrs[i].key)
    ensures !Blocked(map[], attrs, i)
  {
    assert forall key :: "subject." <= Subject(key);
  }

  /** A name inside it can be: with attributes "a" and "subject.a", both valid, the second is not
      authorized by its own value. */
  lemma SubjectNamesCanBeBlocked(id: string)
    ensures var attrs := [Attr("a", Some("1")), Attr("subject.a", Some("2"))];
            !Granted(Eval(AttributePolicy("subject.a", "2"), Environment(map[], id, Found(attrs)), 1))
  {
    var attrs := [Attr("a", Some("1")), Attr("subject.a", Some("2"))];
    CreateAuthorizes("subject.a", "2", id, attrs, 1);
    assert Subject(attrs[0].key) == attrs[1].key;
    assert Stored(map[], attrs, 0);
    assert Blocked(map[], attrs, 1);
  }
}
