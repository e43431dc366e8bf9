/**
 The agent's user environment (util/setenv.go, cmd/agent/main.go): variables set in the
 registry, and their names kept in the list WSLENV while they are set. The registry is
 a map; each call of it may fail, as the `Fault` of an operation says.
 */
module WslEnv {
  import opened Basics

  const WSLENV := "WSLENV"

  datatype Var = Var(name: string, value: string, register: bool, translate: bool)

  type Env = map<string, string>

  /** The first registry call that fails in one operation, if any. */
  datatype Fault = NoFault | OpenFails | NameFails | GetListFails | SetListFails

  // ---- the list ----

  /** Index of the first colon, or the length if there is none. */
  function FirstColon(s: string): (n: nat)
    ensures n <= |s| && ':' !in s[..n]
    ensures n < |s| ==> s[n] == ':'
  {
    if s == "" || s[0] == ':' then 0
    else
      var n := 1 + FirstColon(s[1..]);
      assert s[..n] == [s[0]] + s[1..][..n - 1];
      n
  }

  /** strings.Split(s, ":"). */
  function Split(s: string): (parts: seq<string>)
    ensures parts != []
    decreases |s|
  {
    var n := FirstColon(s);
    if n == |s| then [s] else [s[..n]] + Split(s[n + 1..])
  }

  /** strings.Join(parts, ":"). */
  function Join(parts: seq<string>): string {
    if parts == [] then "" else if |parts| == 1 then parts[0] else parts[0] + ":" + Join(parts[1..])
  }

  function NonEmpty(parts: seq<string>): seq<string> {
    if parts == [] then []
    else (if parts[0] == "" then [] else [parts[0]]) + NonEmpty(parts[1..])
  }

  /** The entries that do not start with the name. */
  function Without(entries: seq<string>, name: string): seq<string> {
    if entries == [] then []
    else (if name <= entries[0] then [] else [entries[0]]) + Without(entries[1..], name)
  }

  function ListOf(env: Env): seq<string> {
    NonEmpty(Split(if WSLENV in env then env[WSLENV] else ""))
  }

  function Entry(v: Var): string { v.name + "/u" + if v.translate then "p" else "" }

  /** A value WSLENV can keep as one entry. */
  predicate IsEntry(e: string) { e != "" && ':' !in e }

  ghost predicate AllEntries(es: seq<string>) { forall e :: e in es ==> IsEntry(e) }

  lemma FirstColonIs(s: string, n: nat)
    requires n <= |s| && ':' !in s[..n] && (n < |s| ==> s[n] == ':')
    ensures FirstColon(s) == n
  {
  }

  lemma SplitFirst(part: string, rest: string)
    requires ':' !in part
    ensures Split(part + ":" + rest) == [part] + Split(rest)
  {
    var s, n := part + ":" + rest, |part|;
    assert s[..n] == part && s[n] == ':' && s[n + 1..] == rest;
    FirstColonIs(s, n);
  }

  lemma {:induction false} SplitJoin(es: seq<string>)
    requires AllEntries(es) && es != []
    ensures Split(Join(es)) == es
    decreases |es|
  {
    var s := Join(es);
    if |es| == 1 {
      assert es[0] in es && s[..|s|] == s;
      FirstColonIs(s, |s|);
      assert es == [es[0]];
    } else {
      assert es[0] in es;
      forall e | e in es[1..] ensures IsEntry(e) { assert e in es; }
      SplitJoin(es[1..]);
      SplitFirst(es[0], Join(es[1..]));
      assert es == [es[0]] + es[1..];
    }
  }

  lemma {:induction false} NonEmptyEntries(es: seq<string>)
    requires AllEntries(es)
    ensures NonEmpty(es) == es
  {
    if es == [] {
    } else {
      assert es[0] in es;
      NonEmptyEntries(es[1..]);
      assert es == [es[0]] + es[1..];
    }
  }

  /** What is written to WSLENV is read back as the list. */
  lemma ListRoundTrip(es: seq<string>)
    requires AllEntries(es)
    ensures NonEmpty(Split(Join(es))) == es
    ensures Join(es) == "" <==> es == []
  {
    if es == [] {
      assert Split("") == [""];
      assert [""][1..] == [];
    } else {
      SplitJoin(es);
      NonEmptyEntries(es);
      assert es[0] in es;
    }
  }

  lemma {:induction false} SplitHasNoColon(s: string)
    ensures forall p :: p in Split(s) ==> ':' !in p
    decreases |s|
  {
    var n := FirstColon(s);
    if n == |s| { assert s[..n] == s; } else { SplitHasNoColon(s[n + 1..]); }
  }

  lemma {:induction false} NonEmptyParts(parts: seq<string>)
    ensures forall p :: p in NonEmpty(parts) <==> p in parts && p != ""
  {
    if parts == [] {
    } else {
      NonEmptyParts(parts[1..]);
    }
  }

  /** Whatever the value of WSLENV, its list is one of entries. */
  lemma ListIsEntries(env: Env)
    ensures AllEntries(ListOf(env))
  {
    var s := if WSLENV in env then env[WSLENV] else "";
    SplitHasNoColon(s);
    NonEmptyParts(Split(s));
  }

  lemma {:induction false} WithoutKeeps(es: seq<string>, name: string)
    ensures forall e :: e in Without(es, name) <==> e in es && !(name <= e)
  {
    if es == [] {
    } else {
      WithoutKeeps(es[1..], name);
    }
  }

  lemma {:induction false} WithoutAppend(a: seq<string>, b: seq<string>, name: string)
    ensures Without(a + b, name) == Without(a, name) + Without(b, name)
  {
    if a == [] {
      assert a + b == b && [] + Without(b, name) == Without(b, name);
    } else {
      WithoutAppend(a[1..], b, name);
      assert (a + b)[1..] == a[1..] + b;
      Associative(if name <= a[0] then [] else [a[0]], Without(a[1..], name), Without(b, name));
    }
  }

  lemma {:induction false} WithoutNone(es: seq<string>, name: string)
    requires forall e :: e in es ==> !(name <= e)
    ensures Without(es, name) == es
  {
    if es == [] {
    } else {
      assert es[0] in es;
      forall e | e in es[1..] ensures !(name <= e) { assert e in es; }
      WithoutNone(es[1..], name);
      assert es == [es[0]] + es[1..];
    }
  }

  // ---- one variable ----

  /** PrepareUserEnvironmentVariable: the new registry, and whether it returned nil. */
  function Prepare(env: Env, v: Var, fault: Fault): (Env, bool) {
    if fault == OpenFails || fault == NameFails then (env, false)
    else
      var setEnv := env[v.name := v.value];
      if !v.register then (setEnv, true)
      else if fault == GetListFails || fault == SetListFails then (setEnv, false)
      else (setEnv[WSLENV := Join(Without(ListOf(setEnv), v.name) + [Entry(v)])], true)
  }

  /** CleanUserEnvironmentVariable. Deleting a value that is not there is an error. */
  function Clean(env: Env, v: Var, fault: Fault): (Env, bool) {
    if fault == OpenFails || fault == NameFails || v.name !in env then (env, false)
    else
      var cleared := env - {v.name};
      if !v.register then (cleared, true)
      else if fault == GetListFails then (cleared, false)
      else
        var joined := Join(Without(ListOf(cleared), v.name));
        if fault == SetListFails || (joined == "" && WSLENV !in cleared) then (cleared, false)
        else if joined == "" then (cleared - {WSLENV}, true)
        else (cleared[WSLENV := joined], true)
  }

  class Registry {
    var values: Env

    /** The loop both functions have over the parts of the list. */
    method Filter(val: string, name: string) returns (vals: seq<string>)
      ensures vals == Without(NonEmpty(Split(val)), name)
    {
      var parts := Split(val);
      vals := [];
      assert parts[0..] == parts;
      for i := 0 to |parts|
        invariant vals + Without(NonEmpty(parts[i..]), name) == Without(NonEmpty(parts), name)
      {
        var part := parts[i];
        assert parts[i..][1..] == parts[i + 1..];
        FilterStep(vals, part, NonEmpty(parts[i + 1..]), name);
        if part != "" && !(name <= part) {
          vals := vals + [part];
        }
      }
      assert parts[|parts|..] == [] && vals + [] == vals;
    }

    method PrepareVariable(v: Var, fault: Fault) returns (ok: bool)
      modifies this
      ensures (values, ok) == Prepare(old(values), v, fault)
    {
      if fault == OpenFails || fault == NameFails {
        return false;
      }
      values := values[v.name := v.value];
      if !v.register {
        return true;
      }
      if fault == GetListFails || fault == SetListFails {
        return false;
      }
      var val := if WSLENV in values then values[WSLENV] else "";
      var vals := Filter(val, v.name);
      var name := v.name + "/u";
      if v.translate {
        name := name + "p";
      } else {
        assert name + "" == name;
      }
      values := values[WSLENV := Join(vals + [name])];
      return true;
    }

    method CleanVariable(v: Var, fault: Fault) returns (ok: bool)
      modifies this
      ensures (values, ok) == Clean(old(values), v, fault)
    {
      if fault == OpenFails || fault == NameFails || v.name !in values {
        return false;
      }
      values := values - {v.name};
      if !v.register {
        return true;
      }
      if fault == GetListFails {
        return false;
      }
      var val := if WSLENV in values then values[WSLENV] else "";
      var vals := Filter(val, v.name);
      var joined := Join(vals);
      if fault == SetListFails || (joined == "" && WSLENV !in values) {
        return false;
      }
      values := if joined == "" then values - {WSLENV} else values[WSLENV := joined];
      return true;
    }

    /** setVars: variables without a value are left out; at the first failure what has
        been set is cleaned. */
    method SetVars(vars: seq<Var>, faults: nat -> Fault, cleanFaults: nat -> Fault)
      returns (ok: bool, initialized: array<bool>)
      modifies this
      ensures fresh(initialized) && initialized.Length == |vars|
      ensures var (env, done) := PrepareFrom(old(values), vars, 0, faults);
        && ok == (done == |vars|)
        && values == (if ok then env else CleanDown(env, vars, done, cleanFaults))
        && forall i :: 0 <= i < |vars| ==> initialized[i] == (ok && vars[i].value != "")
    {
      initialized := new bool[|vars|](_ => false);
      ghost var start := values;
      var i := 0;
      while i < |vars|
        invariant i <= |vars| && fresh(initialized) && initialized.Length == |vars|
        invariant PrepareFrom(values, vars, i, faults) == PrepareFrom(start, vars, 0, faults)
        invariant forall j :: 0 <= j < |vars| ==> initialized[j] == (j < i && vars[j].value != "")
      {
        if vars[i].value != "" {
          ok := PrepareVariable(vars[i], faults(i));
          if !ok {
            Cleaner(vars, initialized, i, cleanFaults);
            return;
          }
          initialized[i] := true;
        }
        i := i + 1;
      }
      return true, initialized;
    }

    /** setVars' cleaner, over the first `n` variables: what is initialized, last first. */
    method Cleaner(vars: seq<Var>, initialized: array<bool>, n: nat, faults: nat -> Fault)
      requires n <= |vars| == initialized.Length
      requires forall j :: 0 <= j < |vars| ==> initialized[j] == (j < n && vars[j].value != "")
      modifies this, initialized
      ensures values == CleanDown(old(values), vars, n, faults)
      ensures forall j :: 0 <= j < |vars| ==> !initialized[j]
    {
      ghost var start := values;
      var i := |vars| - 1;
      while i >= 0
        invariant -1 <= i < |vars|
        invariant forall j :: 0 <= j < |vars| ==> initialized[j] == (j <= i && j < n && vars[j].value != "")
        invariant CleanDown(values, vars, if i + 1 < n then i + 1 else n, faults) == CleanDown(start, vars, n, faults)
      {
        if initialized[i] {
          var _ := CleanVariable(vars[i], faults(i));
          initialized[i] := false;
        }
        i := i - 1;
      }
    }
  }

  lemma FilterStep(vals: seq<string>, part: string, rest: seq<string>, name: string)
    ensures vals + Without((if part == "" then [] else [part]) + rest, name)
         == (if part != "" && !(name <= part) then vals + [part] else vals) + Without(rest, name)
  {
    if part == "" {
      assert [] + rest == rest;
    } else {
      assert ([part] + rest)[1..] == rest;
    }
  }

  // ---- all variables ----

  /** setVars' loop from `i` on: the registry, and how many variables are done. */
  function PrepareFrom(env: Env, vars: seq<Var>, i: nat, faults: nat -> Fault): (r: (Env, nat))
    requires i <= |vars|
    ensures i <= r.1 <= |vars|
    decreases |vars| - i
  {
    if i == |vars| then (env, i)
    else if vars[i].value == "" then PrepareFrom(env, vars, i + 1, faults)
    else
      var (next, ok) := Prepare(env, vars[i], faults(i));
      if ok then PrepareFrom(next, vars, i + 1, faults) else (next, i)
  }

  /** The cleaner over the first `n` variables, last first; its errors are only logged. */
  function CleanDown(env: Env, vars: seq<Var>, n: nat, faults: nat -> Fault): Env
    requires n <= |vars|
    decreases n
  {
    if n == 0 then env
    else
      var next := if vars[n - 1].value == "" then env else Clean(env, vars[n - 1], faults(n - 1)).0;
      CleanDown(next, vars, n - 1, faults)
  }

  // ---- what the list holds ----

  /** A variable that gets an entry of its own. */
  predicate Registered(v: Var) { v.register && v.value != "" }

  /** Names that can share the list: usable as entries, and none starts another. */
  ghost predicate GoodNames(vars: seq<Var>) {
    && (forall k :: 0 <= k < |vars| ==> IsEntry(vars[k].name) && vars[k].name != WSLENV)
    && (forall j, k :: 0 <= j < |vars| && 0 <= k < |vars| && j != k ==> !(vars[j].name <= vars[k].name))
  }

  ghost predicate NoFaults(faults: nat -> Fault) { forall k :: faults(k) == NoFault }

  /** The entry starts with the name of a registered variable. */
  predicate Owned(e: string, vars: seq<Var>) {
    exists k :: 0 <= k < |vars| && Registered(vars[k]) && vars[k].name <= e
  }

  /** The entries nobody here owns, in their order. */
  function Foreign(entries: seq<string>, vars: seq<Var>): seq<string> {
    if entries == [] then []
    else (if Owned(entries[0], vars) then [] else [entries[0]]) + Foreign(entries[1..], vars)
  }

  /** One entry for each registered variable, in their order. */
  function Entries(vars: seq<Var>): seq<string> {
    if vars == [] then []
    else (if Registered(vars[0]) then [Entry(vars[0])] else []) + Entries(vars[1..])
  }

  /** The entries that start with the name. */
  function Starting(entries: seq<string>, name: string): seq<string> {
    if entries == [] then []
    else (if name <= entries[0] then [entries[0]] else []) + Starting(entries[1..], name)
  }

  lemma OwnedSplit(e: string, vars: seq<Var>)
    requires vars != []
    ensures Owned(e, vars) <==> (Registered(vars[0]) && vars[0].name <= e) || Owned(e, vars[1..])
  {
    if Owned(e, vars) {
      var k :| 0 <= k < |vars| && Registered(vars[k]) && vars[k].name <= e;
      assert k > 0 ==> vars[1..][k - 1] == vars[k];
    }
    if Owned(e, vars[1..]) {
      var k :| 0 <= k < |vars[1..]| && Registered(vars[1..][k]) && vars[1..][k].name <= e;
      assert vars[k + 1] == vars[1..][k];
    }
  }

  /** Taking out the first variable's entries, then the others', takes out all. */
  lemma {:induction false} ForeignStep(es: seq<string>, vars: seq<Var>)
    requires vars != []
    ensures Foreign(es, vars)
         == Foreign(if Registered(vars[0]) then Without(es, vars[0].name) else es, vars[1..])
    decreases |es|
  {
    if es == [] {
    } else {
      OwnedSplit(es[0], vars);
      ForeignStep(es[1..], vars);
      if Registered(vars[0]) {
        ForeignAppend(if vars[0].name <= es[0] then [] else [es[0]], Without(es[1..], vars[0].name), vars[1..]);
        ForeignOfOne(es[0], vars[1..]);
      }
    }
  }

  lemma {:induction false} ForeignAppend(a: seq<string>, b: seq<string>, vars: seq<Var>)
    ensures Foreign(a + b, vars) == Foreign(a, vars) + Foreign(b, vars)
    decreases |a|
  {
    if a == [] {
      assert a + b == b && [] + Foreign(b, vars) == Foreign(b, vars);
    } else {
      ForeignAppend(a[1..], b, vars);
      assert (a + b)[1..] == a[1..] + b;
      Associative(if Owned(a[0], vars) then [] else [a[0]], Foreign(a[1..], vars), Foreign(b, vars));
    }
  }

  lemma ForeignOfOne(e: string, vars: seq<Var>)
    ensures Foreign([e], vars) == if Owned(e, vars) then [] else [e]
  {
    assert [e][1..] == [];
  }

  lemma {:induction false} ForeignOfNone(es: seq<string>)
    ensures Foreign(es, []) == es
  {
    if es == [] {
    } else {
      ForeignOfNone(es[1..]);
      assert es == [es[0]] + es[1..];
    }
  }

  lemma {:induction false} ForeignKeeps(es: seq<string>, vars: seq<Var>)
    ensures forall e :: e in Foreign(es, vars) <==> e in es && !Owned(e, vars)
    decreases |es|
  {
    if es == [] {
    } else {
      ForeignKeeps(es[1..], vars);
    }
  }

  /** An entry starts with its own variable's name only. */
  lemma EntryIsOwn(v: Var, w: Var)
    requires !(v.name <= w.name) && !(w.name <= v.name)
    ensures !(v.name <= Entry(w))
  {
    var n := if |v.name| < |w.name| then |v.name| else |w.name|;
    assert Entry(w)[..n] == w.name[..n];
  }

  lemma EntryIsGood(v: Var)
    requires IsEntry(v.name)
    ensures IsEntry(Entry(v)) && v.name <= Entry(v)
  {
  }

  lemma GoodTail(vars: seq<Var>)
    requires GoodNames(vars) && vars != []
    ensures GoodNames(vars[1..])
    ensures !Owned(Entry(vars[0]), vars[1..])
  {
    var tail := vars[1..];
    forall k | 0 <= k < |tail| ensures tail[k] == vars[k + 1] {}
    if Owned(Entry(vars[0]), tail) {
      var k :| 0 <= k < |tail| && Registered(tail[k]) && tail[k].name <= Entry(vars[0]);
      EntryIsOwn(vars[k + 1], vars[0]);
      assert false;
    }
  }

  // ---- preparing ----

  /** One step: the list loses what starts with the name and gains its entry. */
  lemma PreparedOne(env: Env, v: Var, fault: Fault)
    requires IsEntry(v.name) && v.name != WSLENV && v.value != ""
    ensures var (next, ok) := Prepare(env, v, fault);
      && (ok ==> ListOf(next) == if v.register then Without(ListOf(env), v.name) + [Entry(v)] else ListOf(env))
      && (!ok ==> ListOf(next) == ListOf(env))
  {
    hide Join, Split, NonEmpty, Without, Entry;
    var kept := Without(ListOf(env), v.name);
    ListIsEntries(env);
    WithoutKeeps(ListOf(env), v.name);
    EntryIsGood(v);
    ListRoundTrip(kept + [Entry(v)]);
    assert ListOf(env[v.name := v.value]) == ListOf(env);
  }

  /** What one more variable in front does to the list of the others. */
  lemma OneMore(es: seq<string>, v: Var, rest: seq<Var>)
    requires !Owned(Entry(v), rest)
    ensures Foreign(if Registered(v) then Without(es, v.name) + [Entry(v)] else es, rest) + Entries(rest)
         == Foreign(es, [v] + rest) + Entries([v] + rest)
  {
    assert ([v] + rest)[1..] == rest;
    ForeignStep(es, [v] + rest);
    if Registered(v) {
      var kept := Without(es, v.name);
      ForeignAppend(kept, [Entry(v)], rest);
      ForeignOfOne(Entry(v), rest);
      assert (Foreign(kept, rest) + [Entry(v)]) + Entries(rest)
          == Foreign(kept, rest) + ([Entry(v)] + Entries(rest));
    } else {
      assert [] + Entries(rest) == Entries(rest);
    }
  }

  /** However far the loop of setVars gets, each variable done has its entry, and the
      entries of others are what they were, in their order. */
  lemma {:induction false} PreparedList(env: Env, vars: seq<Var>, i: nat, faults: nat -> Fault)
    requires i <= |vars| && GoodNames(vars[i..])
    ensures var (out, done) := PrepareFrom(env, vars, i, faults);
      ListOf(out) == Foreign(ListOf(env), vars[i..done]) + Entries(vars[i..done])
    decreases |vars| - i
  {
    var done := PrepareFrom(env, vars, i, faults).1;
    ForeignOfNone(ListOf(env));
    assert vars[i..i] == [] && ListOf(env) + [] == ListOf(env);
    if i < |vars| {
      var v, rest := vars[i], vars[i + 1..];
      assert vars[i..][0] == v && vars[i..][1..] == rest;
      GoodTail(vars[i..]);
      if v.value == "" || Prepare(env, v, faults(i)).1 {
        var part := vars[i + 1..done];
        assert vars[i..done] == [v] + part && part <= rest;
        NotOwnedSooner(Entry(v), rest, part);
        OneMore(ListOf(env), v, part);
      }
      if v.value == "" {
        PreparedList(env, vars, i + 1, faults);
      } else {
        PreparedOne(env, v, faults(i));
        if Prepare(env, v, faults(i)).1 {
          PreparedList(Prepare(env, v, faults(i)).0, vars, i + 1, faults);
        }
      }
    }
  }

  lemma NotOwnedSooner(e: string, vars: seq<Var>, part: seq<Var>)
    requires part <= vars && !Owned(e, vars)
    ensures !Owned(e, part)
  {
  }

  /** What else is in the registry: the values of the variables done, and of the one that
      failed if its value was set before the failure; nothing more. */
  predicate Sets(v: Var, key: string) { v.value != "" && v.name == key }

  predicate LeftBehind(v: Var, fault: Fault) {
    v.register && (fault == GetListFails || fault == SetListFails)
  }

  /** Whether preparing from `i` on leaves its own value under the key. */
  predicate Touches(vars: seq<Var>, i: nat, done: nat, faults: nat -> Fault, key: string)
    requires i <= done <= |vars|
  {
    || (exists k :: i <= k < done && Sets(vars[k], key))
    || (done < |vars| && vars[done].name == key && LeftBehind(vars[done], faults(done)))
  }

  lemma {:induction false} PreparedValue(env: Env, vars: seq<Var>, i: nat, faults: nat -> Fault, key: string)
    requires i <= |vars| && key != WSLENV
    requires forall j, k :: i <= j < k < |vars| ==> vars[j].name != vars[k].name
    ensures var (out, done) := PrepareFrom(env, vars, i, faults);
      && (forall k :: i <= k < done && Sets(vars[k], key) ==> key in out && out[key] == vars[k].value)
      && (done < |vars| && vars[done].name == key && LeftBehind(vars[done], faults(done)) ==>
            key in out && out[key] == vars[done].value)
      && (!Touches(vars, i, done, faults, key) ==>
            (key in out <==> key in env) && (key in env ==> out[key] == env[key]))
    decreases |vars| - i
  {
    if i < |vars| {
      if vars[i].value == "" {
        PreparedValue(env, vars, i + 1, faults, key);
      } else {
        var (next, ok) := Prepare(env, vars[i], faults(i));
        if ok { PreparedValue(next, vars, i + 1, faults, key); }
      }
    }
  }

  // ---- cleaning ----

  /** WSLENV is its list written out, and is not there when the list is empty. */
  predicate Tidy(env: Env) {
    if ListOf(env) == [] then WSLENV !in env
    else WSLENV in env && env[WSLENV] == Join(ListOf(env))
  }

  lemma EmptyList(env: Env)
    ensures WSLENV !in env ==> ListOf(env) == []
  {
    assert Split("") == [""];
    assert [""][1..] == [];
  }

  lemma ListSet(env: Env, es: seq<string>)
    requires AllEntries(es)
    ensures es != [] ==> ListOf(env[WSLENV := Join(es)]) == es && Tidy(env[WSLENV := Join(es)])
    ensures ListOf(env - {WSLENV}) == [] && Tidy(env - {WSLENV})
  {
    ListRoundTrip(es);
    EmptyList(env - {WSLENV});
  }

  lemma CleanedOne(env: Env, v: Var)
    requires IsEntry(v.name) && v.name != WSLENV && v.name in env
    requires v.register ==> WSLENV in env
    ensures var (next, ok) := Clean(env, v, NoFault);
      && ok
      && ListOf(next) == (if v.register then Without(ListOf(env), v.name) else ListOf(env))
      && (v.register || Tidy(env) ==> Tidy(next))
  {
    var kept := Without(ListOf(env), v.name);
    ListIsEntries(env);
    WithoutKeeps(ListOf(env), v.name);
    ListRoundTrip(kept);
    ListSet(env - {v.name}, kept);
    assert ListOf(env - {v.name}) == ListOf(env);
  }

  lemma {:induction false} EntriesAppend(vars: seq<Var>, v: Var)
    ensures Entries(vars + [v]) == Entries(vars) + if Registered(v) then [Entry(v)] else []
  {
    if vars == [] {
      assert vars + [v] == [v] && [v][1..] == [];
    } else {
      EntriesAppend(vars[1..], v);
      assert (vars + [v])[1..] == vars[1..] + [v];
    }
  }

  lemma {:induction false} EntriesAreOwn(vars: seq<Var>, v: Var)
    requires forall k :: 0 <= k < |vars| ==> !(v.name <= vars[k].name) && !(vars[k].name <= v.name)
    ensures forall e :: e in Entries(vars) ==> !(v.name <= e)
  {
    if vars == [] {
    } else {
      EntryIsOwn(v, vars[0]);
      EntriesAreOwn(vars[1..], v);
    }
  }

  /** Taking out the last variable's entry leaves the entries of the others. */
  lemma OneLess(base: seq<string>, vars: seq<Var>, n: nat)
    requires n < |vars| && GoodNames(vars) && Registered(vars[n])
    requires forall e :: e in base ==> !Owned(e, vars[..n + 1])
    ensures Without(base + Entries(vars[..n + 1]), vars[n].name) == base + Entries(vars[..n])
  {
    var v, own := vars[n], Entries(vars[..n]);
    assert vars[..n + 1] == vars[..n] + [v];
    EntriesAppend(vars[..n], v);
    EntriesAreOwn(vars[..n], v);
    forall e | e in base + own ensures !(v.name <= e) {
      if e in base { assert vars[..n + 1][n] == v; }
    }
    WithoutNone(base + own, v.name);
    WithoutAppend(base + own, [Entry(v)], v.name);
    EntryIsGood(v);
    assert [Entry(v)][1..] == [];
    assert base + (own + [Entry(v)]) == (base + own) + [Entry(v)];
  }

  /** The variables of the first `n` that have a value are set. */
  predicate AllSet(env: Env, vars: seq<Var>, n: nat)
    requires n <= |vars|
  {
    forall k :: 0 <= k < n && vars[k].value != "" ==> vars[k].name in env
  }

  /** What the cleaner does for variable `n`. */
  function CleanNth(env: Env, vars: seq<Var>, n: nat, fault: Fault): Env
    requires n < |vars|
  {
    if vars[n].value == "" then env else Clean(env, vars[n], fault).0
  }

  lemma StaySet(env: Env, vars: seq<Var>, n: nat)
    requires n < |vars| && GoodNames(vars) && AllSet(env, vars, n + 1)
    ensures AllSet(CleanNth(env, vars, n, NoFault), vars, n)
  {
    var out := CleanNth(env, vars, n, NoFault);
    forall k | 0 <= k < n && vars[k].value != "" ensures vars[k].name in out {
      assert !(vars[k].name <= vars[n].name);
    }
  }

  lemma CleanedStep(env: Env, vars: seq<Var>, n: nat, base: seq<string>)
    requires n < |vars| && GoodNames(vars) && AllSet(env, vars, n + 1)
    requires forall e :: e in base ==> !Owned(e, vars[..n + 1])
    requires ListOf(env) == base + Entries(vars[..n + 1])
    ensures var out := CleanNth(env, vars, n, NoFault);
      ListOf(out) == base + Entries(vars[..n]) && (Tidy(env) ==> Tidy(out))
  {
    var v, own := vars[n], Entries(vars[..n]);
    assert vars[..n + 1] == vars[..n] + [v];
    EntriesAppend(vars[..n], v);
    assert own + [] == own;
    if v.value != "" {
      EmptyList(env);
      CleanedOne(env, v);
      if v.register { OneLess(base, vars, n); }
    }
  }

  /** The cleaner takes out the entries of the variables done and nothing else, and
      removes WSLENV itself when nothing is left in it. */
  lemma {:induction false} CleanedList(env: Env, vars: seq<Var>, n: nat, faults: nat -> Fault, base: seq<string>)
    requires n <= |vars| && GoodNames(vars) && NoFaults(faults) && AllSet(env, vars, n)
    requires forall e :: e in base ==> !Owned(e, vars[..n])
    requires ListOf(env) == base + Entries(vars[..n])
    ensures var out := CleanDown(env, vars, n, faults);
      ListOf(out) == base && (Tidy(env) ==> Tidy(out))
    decreases n
  {
    if n == 0 {
      assert vars[..0] == [] && base + [] == base;
    } else {
      forall e | e in base ensures !Owned(e, vars[..n - 1]) { NotOwnedSooner(e, vars[..n], vars[..n - 1]); }
      assert faults(n - 1) == NoFault;
      CleanedStep(env, vars, n - 1, base);
      StaySet(env, vars, n - 1);
      CleanedList(CleanNth(env, vars, n - 1, NoFault), vars, n - 1, faults, base);
    }
  }

  /** The cleaner deletes the values of the variables done and no other. */
  lemma {:induction false} CleanedValue(env: Env, vars: seq<Var>, n: nat, faults: nat -> Fault, key: string)
    requires n <= |vars| && NoFaults(faults) && key != WSLENV
    ensures var out := CleanDown(env, vars, n, faults);
      && ((exists k :: 0 <= k < n && Sets(vars[k], key)) ==> key !in out)
      && ((forall k :: 0 <= k < n ==> !Sets(vars[k], key)) ==>
            (key in out <==> key in env) && (key in env ==> out[key] == env[key]))
      && (key !in env ==> key !in out)
    decreases n
  {
    if n == 0 {
    } else {
      assert faults(n - 1) == NoFault;
      CleanedValue(if vars[n - 1].value == "" then env else Clean(env, vars[n - 1], faults(n - 1)).0,
                   vars, n - 1, faults, key);
    }
  }

  // ---- main results ----

  /** While the variables are set, each name has exactly one entry: its own. */
  lemma OneEntryEach(env: Env, vars: seq<Var>, faults: nat -> Fault, k: nat)
    requires GoodNames(vars)
    requires k < PrepareFrom(env, vars, 0, faults).1 && Registered(vars[k])
    ensures Starting(ListOf(PrepareFrom(env, vars, 0, faults).0), vars[k].name) == [Entry(vars[k])]
  {
    var done := PrepareFrom(env, vars, 0, faults).1;
    var now, v := vars[..done], vars[k];
    assert vars[0..] == vars && vars[0..done] == now;
    PreparedList(env, vars, 0, faults);
    var base := Foreign(ListOf(env), now);
    ForeignKeeps(ListOf(env), now);
    assert now[k] == v;
    StartingAppend(base, Entries(now), v.name);
    StartingNone(base, v.name);
    OneStarting(now, k);
    assert [] + [Entry(v)] == [Entry(v)];
  }

  /** That entry, as it is written: the name with `/up` if the value is to be translated as
      a path, with `/u` if not. */
  lemma EntriesLook(env: Env, vars: seq<Var>, faults: nat -> Fault, k: nat)
    requires GoodNames(vars)
    requires k < PrepareFrom(env, vars, 0, faults).1 && Registered(vars[k])
    ensures Starting(ListOf(PrepareFrom(env, vars, 0, faults).0), vars[k].name)
         == [if vars[k].translate then vars[k].name + "/up" else vars[k].name + "/u"]
  {
    OneEntryEach(env, vars, faults, k);
    var name := vars[k].name;
    assert name + "/u" + "p" == name + "/up" && name + "/u" + "" == name + "/u";
    hide Starting, PrepareFrom, ListOf;
  }

  /** The value of WSLENV while the variables are set: the entries that stay, then the own
      ones, with a colon between any two. */
  lemma RawPrepared(env: Env, vars: seq<Var>, faults: nat -> Fault)
    requires GoodNames(vars)
    ensures var (out, done) := PrepareFrom(env, vars, 0, faults);
      AnyRegistered(vars, 0, done) ==>
        Wslenv(out) == [Join(Foreign(ListOf(env), vars[..done]) + Entries(vars[..done]))]
  {
    var (out, done) := PrepareFrom(env, vars, 0, faults);
    PreparedWslenv(env, vars, 0, faults);
    assert vars[0..] == vars && vars[0..done] == vars[..done];
    PreparedList(env, vars, 0, faults);
    if AnyRegistered(vars, 0, done) {
      var k :| 0 <= k < done && Registered(vars[k]);
      EntryOf(vars[..done], k);
    }
    hide PrepareFrom, ListOf, Foreign, Entries, GoodNames, Join;
  }

  lemma {:induction false} EntryOf(vars: seq<Var>, k: nat)
    requires k < |vars| && Registered(vars[k])
    ensures Entry(vars[k]) in Entries(vars)
    decreases |vars|
  {
    if k == 0 {
    } else {
      EntryOf(vars[1..], k - 1);
    }
  }

  lemma {:induction false} StartingAppend(a: seq<string>, b: seq<string>, name: string)
    ensures Starting(a + b, name) == Starting(a, name) + Starting(b, name)
  {
    if a == [] {
      assert a + b == b && [] + Starting(b, name) == Starting(b, name);
    } else {
      StartingAppend(a[1..], b, name);
      assert (a + b)[1..] == a[1..] + b;
      Associative(if name <= a[0] then [a[0]] else [], Starting(a[1..], name), Starting(b, name));
    }
  }

  lemma {:induction false} StartingNone(es: seq<string>, name: string)
    requires forall e :: e in es ==> !(name <= e)
    ensures Starting(es, name) == []
  {
    if es == [] {
    } else {
      assert es[0] in es;
      forall e | e in es[1..] ensures !(name <= e) { assert e in es; }
      StartingNone(es[1..], name);
    }
  }

  lemma {:induction false} OneStarting(vars: seq<Var>, k: nat)
    requires GoodNames(vars) && k < |vars| && Registered(vars[k])
    ensures Starting(Entries(vars), vars[k].name) == [Entry(vars[k])]
    decreases |vars|
  {
    var v, first := vars[k], if Registered(vars[0]) then [Entry(vars[0])] else [];
    StartingAppend(first, Entries(vars[1..]), v.name);
    StartingOfOne(Entry(vars[0]), v.name);
    if k == 0 {
      EntriesAreOwn(vars[1..], v);
      StartingNone(Entries(vars[1..]), v.name);
      EntryIsGood(v);
    } else {
      EntryIsOwn(v, vars[0]);
      GoodTail(vars);
      OneStarting(vars[1..], k - 1);
    }
  }

  lemma StartingOfOne(e: string, name: string)
    ensures Starting([e], name) == if name <= e then [e] else []
  {
    assert [e][1..] == [];
  }

  /** setVars followed by its cleaner, whether it got to the end or failed on the way. The
      list is left with the original entries that start with none of the names set; the
      values set are gone, and what they replaced is not put back; a variable whose list
      update failed keeps its new value; every other value is as it was. */
  lemma SetThenClean(env: Env, vars: seq<Var>, faults: nat -> Fault, cleanFaults: nat -> Fault, key: string)
    requires GoodNames(vars) && NoFaults(cleanFaults) && key != WSLENV
    ensures var (setEnv, done) := PrepareFrom(env, vars, 0, faults);
      var out := CleanDown(setEnv, vars, done, cleanFaults);
      && ListOf(out) == Foreign(ListOf(env), vars[..done])
      && ((exists k :: 0 <= k < done && Sets(vars[k], key)) ==> key !in out)
      && (done < |vars| && vars[done].name == key && LeftBehind(vars[done], faults(done)) ==>
            key in out && out[key] == vars[done].value)
      && (!Touches(vars, 0, done, faults, key) ==>
            (key in out <==> key in env) && (key in env ==> out[key] == env[key]))
  {
    var (setEnv, done) := PrepareFrom(env, vars, 0, faults);
    assert vars[0..] == vars && vars[0..done] == vars[..done];
    PreparedList(env, vars, 0, faults);
    ForeignKeeps(ListOf(env), vars[..done]);
    NamesDiffer(vars);
    PreparedAreSet(env, vars, faults);
    CleanedList(setEnv, vars, done, cleanFaults, Foreign(ListOf(env), vars[..done]));
    PreparedValue(env, vars, 0, faults, key);
    CleanedValue(setEnv, vars, done, cleanFaults, key);
  }

  lemma NamesDiffer(vars: seq<Var>)
    requires GoodNames(vars)
    ensures forall j, k :: 0 <= j < k < |vars| ==> vars[j].name != vars[k].name
  {
    forall j, k | 0 <= j < k < |vars| ensures vars[j].name != vars[k].name {
      assert !(vars[j].name <= vars[k].name);
    }
  }

  lemma PreparedAreSet(env: Env, vars: seq<Var>, faults: nat -> Fault)
    requires GoodNames(vars)
    ensures var (out, done) := PrepareFrom(env, vars, 0, faults); AllSet(out, vars, done)
  {
    var (out, done) := PrepareFrom(env, vars, 0, faults);
    NamesDiffer(vars);
    forall k | 0 <= k < done && vars[k].value != "" ensures vars[k].name in out {
      PreparedValue(env, vars, 0, faults, vars[k].name);
      assert Sets(vars[k], vars[k].name);
    }
  }

  /** Some variable among those from `i` to `done` was registered. */
  predicate AnyRegistered(vars: seq<Var>, i: nat, done: nat)
    requires i <= done <= |vars|
  {
    exists k :: i <= k < done && Registered(vars[k])
  }

  lemma {:induction false} PreparedWslenv(env: Env, vars: seq<Var>, i: nat, faults: nat -> Fault)
    requires i <= |vars| && GoodNames(vars)
    ensures var (out, done) := PrepareFrom(env, vars, i, faults);
      && (AnyRegistered(vars, i, done) || Tidy(env) ==> Tidy(out))
      && (!AnyRegistered(vars, i, done) ==> Wslenv(out) == Wslenv(env))
    decreases |vars| - i
  {
    hide Prepare, Tidy, Wslenv;
    if i < |vars| {
      var v := vars[i];
      if v.value == "" {
        PreparedWslenv(env, vars, i + 1, faults);
      } else {
        PreparedOneWslenv(env, v, faults(i));
        if Prepare(env, v, faults(i)).1 {
          PreparedWslenv(Prepare(env, v, faults(i)).0, vars, i + 1, faults);
        }
      }
    }
  }

  /** The raw value of WSLENV: none, or one string. */
  function Wslenv(env: Env): seq<string> { if WSLENV in env then [env[WSLENV]] else [] }

  lemma PreparedOneWslenv(env: Env, v: Var, fault: Fault)
    requires IsEntry(v.name) && v.name != WSLENV && v.value != ""
    ensures var (next, ok) := Prepare(env, v, fault);
      && ((v.register && ok) || Tidy(env) ==> Tidy(next))
      && (!v.register || !ok ==> Wslenv(next) == Wslenv(env))
  {
    hide Join, Split, NonEmpty, Without, Entry;
    OtherKey(env, v);
    if v.register && Prepare(env, v, fault).1 {
      var mid := env[v.name := v.value];
      ListIsEntries(mid);
      WithoutKeeps(ListOf(mid), v.name);
      EntryIsGood(v);
      ListSet(mid, Without(ListOf(mid), v.name) + [Entry(v)]);
    }
  }

  lemma OtherKey(env: Env, v: Var)
    requires v.name != WSLENV
    ensures var mid := env[v.name := v.value];
      ListOf(mid) == ListOf(env) && Wslenv(mid) == Wslenv(env) && (Tidy(mid) <==> Tidy(env))
  {
  }

  lemma {:induction false} CleanedWslenv(env: Env, vars: seq<Var>, n: nat, faults: nat -> Fault)
    requires n <= |vars| && GoodNames(vars) && !AnyRegistered(vars, 0, n)
    ensures Wslenv(CleanDown(env, vars, n, faults)) == Wslenv(env)
    decreases n
  {
    if n == 0 {
    } else {
      assert vars[n - 1].name != WSLENV;
      assert !Registered(vars[n - 1]);
      CleanedWslenv(CleanNth(env, vars, n - 1, faults(n - 1)), vars, n - 1, faults);
    }
  }

  /** WSLENV after setVars and its cleaner: untouched if nothing was registered, and
      otherwise exactly what is left of the list, or absent if that is nothing. */
  lemma WslenvAfterClean(env: Env, vars: seq<Var>, faults: nat -> Fault, cleanFaults: nat -> Fault)
    requires GoodNames(vars) && NoFaults(cleanFaults)
    ensures var (setEnv, done) := PrepareFrom(env, vars, 0, faults);
      var left := Foreign(ListOf(env), vars[..done]);
      Wslenv(CleanDown(setEnv, vars, done, cleanFaults))
        == if !AnyRegistered(vars, 0, done) then Wslenv(env) else if left == [] then [] else [Join(left)]
  {
    var (setEnv, done) := PrepareFrom(env, vars, 0, faults);
    PreparedWslenv(env, vars, 0, faults);
    if AnyRegistered(vars, 0, done) {
      assert vars[0..] == vars && vars[0..done] == vars[..done];
      PreparedList(env, vars, 0, faults);
      ForeignKeeps(ListOf(env), vars[..done]);
      PreparedAreSet(env, vars, faults);
      CleanedList(setEnv, vars, done, cleanFaults, Foreign(ListOf(env), vars[..done]));
    } else {
      CleanedWslenv(setEnv, vars, done, cleanFaults);
    }
  }

  // ---- when the cleaner restores the registry ----

  /** The registry after setVars and its cleaner. */
  function SetAndCleaned(env: Env, vars: seq<Var>, faults: nat -> Fault, cleanFaults: nat -> Fault): Env {
    var (setEnv, done) := PrepareFrom(env, vars, 0, faults);
    CleanDown(setEnv, vars, done, cleanFaults)
  }

  /** How many variables setVars gets done. */
  function DoneBy(env: Env, vars: seq<Var>, faults: nat -> Fault): (done: nat)
    ensures done <= |vars|
  {
    PrepareFrom(env, vars, 0, faults).1
  }

  predicate SameAt(a: Env, b: Env, key: string) {
    (key in a <==> key in b) && (key in a ==> a[key] == b[key])
  }

  /** Cleaning one variable, whatever fails: it is deleted unless its own call fails, nothing
      but it and the list is touched, and the list only if everything goes well. */
  lemma CleanWithFaults(env: Env, v: Var, fault: Fault)
    requires v.name != WSLENV
    ensures var (out, ok) := Clean(env, v, fault);
      && (v.name in out <==> v.name in env && (fault == OpenFails || fault == NameFails))
      && (v.name in out ==> out == env)
      && (forall key :: key != v.name && key != WSLENV ==> SameAt(out, env, key))
      && (!ok || !v.register ==> SameAt(out, env, WSLENV))
      && (ok <==> v.name in env && v.name !in out && (!v.register || (fault == NoFault && WSLENV in env)))
  {
    hide Join, Without, ListOf;
    EmptyList(env - {v.name});
    NothingWithout(v.name);
  }

  lemma NothingWithout(name: string)
    ensures Join(Without([], name)) == ""
  {
  }

  /** Setting one, whatever fails, likewise. */
  lemma PrepareWithFaults(env: Env, v: Var, fault: Fault)
    requires v.name != WSLENV
    ensures var (out, ok) := Prepare(env, v, fault);
      && (if fault == OpenFails || fault == NameFails then out == env else v.name in out && out[v.name] == v.value)
      && (forall key :: key != v.name && key != WSLENV ==> SameAt(out, env, key))
      && (!ok || !v.register ==> SameAt(out, env, WSLENV))
      && (ok <==> fault == NoFault || (!v.register && (fault == GetListFails || fault == SetListFails)))
  {
    hide Join, Without, ListOf;
  }

  /** The key had no value, if one of the variables done sets it. */
  predicate NewIfSet(env: Env, vars: seq<Var>, done: nat, key: string)
    requires done <= |vars|
  {
    forall k :: 0 <= k < done && Sets(vars[k], key) ==> key !in env
  }

  /** The key had that value already, if a variable is left behind under it. */
  predicate OldIfLeft(env: Env, vars: seq<Var>, done: nat, faults: nat -> Fault, key: string)
    requires done <= |vars|
  {
    done < |vars| && vars[done].name == key && LeftBehind(vars[done], faults(done)) ==>
      key in env && env[key] == vars[done].value
  }

  /** The list is written as the code writes it, and nobody's name starts an entry; or no
      variable done is registered. */
  ghost predicate ListStays(env: Env, vars: seq<Var>, done: nat)
    requires done <= |vars|
  {
    AnyRegistered(vars, 0, done) ==> Tidy(env) && forall e :: e in ListOf(env) ==> !Owned(e, vars[..done])
  }

  /** The cleaner reverses what was done to a value exactly when there was no value before,
      or, for the variable left behind by a failed list update, the same value. */
  lemma RestoredIff(env: Env, vars: seq<Var>, faults: nat -> Fault, cleanFaults: nat -> Fault, key: string)
    requires GoodNames(vars) && NoFaults(cleanFaults) && key != WSLENV
    ensures var done := DoneBy(env, vars, faults);
      SameAt(SetAndCleaned(env, vars, faults, cleanFaults), env, key) <==>
        NewIfSet(env, vars, done, key) && OldIfLeft(env, vars, done, faults, key)
  {
    NamesDiffer(vars);
    SetThenClean(env, vars, faults, cleanFaults, key);
  }

  lemma RawListStays(env: Env, now: seq<Var>)
    ensures var left := Foreign(ListOf(env), now);
      && ((if left == [] then [] else [Join(left)]) == Wslenv(env) <==> Tidy(env) && left == ListOf(env))
      && (left == ListOf(env) <==> forall e :: e in ListOf(env) ==> !Owned(e, now))
  {
    var left := Foreign(ListOf(env), now);
    ListIsEntries(env);
    ForeignKeeps(ListOf(env), now);
    EmptyList(env);
    ListRoundTrip(left);
    if forall e :: e in ListOf(env) ==> !Owned(e, now) { ForeignAll(ListOf(env), now); }
  }

  /** It leaves WSLENV as it was exactly when no variable done is registered, or the value
      was its list written out and held no entry that starts with a name done. */
  lemma ListRestoredIff(env: Env, vars: seq<Var>, faults: nat -> Fault, cleanFaults: nat -> Fault)
    requires GoodNames(vars) && NoFaults(cleanFaults)
    ensures Wslenv(SetAndCleaned(env, vars, faults, cleanFaults)) == Wslenv(env) <==>
      ListStays(env, vars, DoneBy(env, vars, faults))
  {
    hide PrepareFrom, CleanDown, ListOf, Foreign, Join, GoodNames, Wslenv, Tidy, Owned;
    WslenvAfterClean(env, vars, faults, cleanFaults);
    RawListStays(env, vars[..DoneBy(env, vars, faults)]);
  }

  /** No variable done had a value before. */
  predicate NamesWereNew(env: Env, vars: seq<Var>, done: nat)
    requires done <= |vars|
  {
    forall k :: 0 <= k < done && vars[k].value != "" ==> vars[k].name !in env
  }

  predicate FailedWasOld(env: Env, vars: seq<Var>, done: nat, faults: nat -> Fault)
    requires done <= |vars|
  {
    done < |vars| ==> OldIfLeft(env, vars, done, faults, vars[done].name)
  }

  /** The whole registry is as it was exactly when the list stays, every variable done is
      new, and the one left behind is not. */
  lemma RegistryRestoredIff(env: Env, vars: seq<Var>, faults: nat -> Fault, cleanFaults: nat -> Fault)
    requires GoodNames(vars) && NoFaults(cleanFaults)
    ensures var done := DoneBy(env, vars, faults);
      SetAndCleaned(env, vars, faults, cleanFaults) == env <==>
        ListStays(env, vars, done) && NamesWereNew(env, vars, done) && FailedWasOld(env, vars, done, faults)
  {
    hide PrepareFrom, CleanDown, SetAndCleaned, DoneBy, ListStays, Tidy, Owned, ListOf;
    var out, done := SetAndCleaned(env, vars, faults, cleanFaults), DoneBy(env, vars, faults);
    ListRestoredIff(env, vars, faults, cleanFaults);
    if out == env {
      forall k | 0 <= k < done && vars[k].value != "" ensures vars[k].name !in env {
        RestoredIff(env, vars, faults, cleanFaults, vars[k].name);
        assert Sets(vars[k], vars[k].name);
      }
      if done < |vars| { RestoredIff(env, vars, faults, cleanFaults, vars[done].name); }
    }
    if Wslenv(out) == Wslenv(env) && NamesWereNew(env, vars, done) && FailedWasOld(env, vars, done, faults) {
      forall key: string ensures SameAt(out, env, key) {
        if key == WSLENV {
          SameRaw(out, env);
        } else {
          RestoredIff(env, vars, faults, cleanFaults, key);
        }
      }
      SameMap(out, env);
    }
  }

  lemma SameRaw(a: Env, b: Env)
    requires Wslenv(a) == Wslenv(b)
    ensures SameAt(a, b, WSLENV)
  {
    if WSLENV in a && WSLENV in b { assert [a[WSLENV]][0] == [b[WSLENV]][0]; }
  }

  lemma SameMap(a: Env, b: Env)
    requires forall key :: SameAt(a, b, key)
    ensures a == b
  {
    assert forall key :: key in a ==> SameAt(a, b, key);
    assert forall key :: key in b ==> SameAt(a, b, key);
  }

  /** Setting the variables a second time changes nothing. */
  lemma PrepareTwice(env: Env, vars: seq<Var>, faults: nat -> Fault)
    requires GoodNames(vars) && NoFaults(faults)
    ensures var once := PrepareFrom(env, vars, 0, faults);
      once.1 == |vars| && PrepareFrom(once.0, vars, 0, faults) == once
  {
    var once := PrepareFrom(env, vars, 0, faults).0;
    var twice := PrepareFrom(once, vars, 0, faults).0;
    NothingFails(env, vars, 0, faults);
    NothingFails(once, vars, 0, faults);
    forall key: string | key != WSLENV
      ensures (key in twice <==> key in once) && (key in once ==> twice[key] == once[key])
    {
      SameValue(env, vars, faults, key);
    }
    SameList(env, vars, faults);
    PreparedWslenv(env, vars, 0, faults);
    PreparedWslenv(once, vars, 0, faults);
    assert Wslenv(twice) == Wslenv(once);
    assert twice == once;
  }

  lemma {:induction false} NothingFails(env: Env, vars: seq<Var>, i: nat, faults: nat -> Fault)
    requires i <= |vars| && NoFaults(faults)
    ensures PrepareFrom(env, vars, i, faults).1 == |vars|
    decreases |vars| - i
  {
    if i < |vars| {
      assert faults(i) == NoFault;
      NothingFails(if vars[i].value == "" then env else Prepare(env, vars[i], NoFault).0, vars, i + 1, faults);
    }
  }

  lemma SameValue(env: Env, vars: seq<Var>, faults: nat -> Fault, key: string)
    requires GoodNames(vars) && NoFaults(faults) && key != WSLENV
    ensures var once := PrepareFrom(env, vars, 0, faults).0;
      var twice := PrepareFrom(once, vars, 0, faults).0;
      (key in twice <==> key in once) && (key in once ==> twice[key] == once[key])
  {
    var once := PrepareFrom(env, vars, 0, faults).0;
    NamesDiffer(vars);
    NothingFails(env, vars, 0, faults);
    NothingFails(once, vars, 0, faults);
    PreparedValue(env, vars, 0, faults, key);
    PreparedValue(once, vars, 0, faults, key);
  }

  lemma SameList(env: Env, vars: seq<Var>, faults: nat -> Fault)
    requires GoodNames(vars) && NoFaults(faults)
    ensures var once := PrepareFrom(env, vars, 0, faults).0;
      ListOf(PrepareFrom(once, vars, 0, faults).0) == ListOf(once)
  {
    var once := PrepareFrom(env, vars, 0, faults).0;
    assert vars[0..] == vars && vars[0..|vars|] == vars;
    NothingFails(env, vars, 0, faults);
    NothingFails(once, vars, 0, faults);
    PreparedList(env, vars, 0, faults);
    PreparedList(once, vars, 0, faults);
    var base := Foreign(ListOf(env), vars);
    ForeignKeeps(ListOf(env), vars);
    ForeignAppend(base, Entries(vars), vars);
    ForeignAll(base, vars);
    EntriesOwned(vars);
    ForeignNone(Entries(vars), vars);
    assert base + [] == base;
  }

  lemma {:induction false} ForeignAll(es: seq<string>, vars: seq<Var>)
    requires forall e :: e in es ==> !Owned(e, vars)
    ensures Foreign(es, vars) == es
    decreases |es|
  {
    if es == [] {
    } else {
      assert es[0] in es;
      forall e | e in es[1..] ensures !Owned(e, vars) { assert e in es; }
      ForeignAll(es[1..], vars);
      assert es == [es[0]] + es[1..];
    }
  }

  lemma {:induction false} ForeignNone(es: seq<string>, vars: seq<Var>)
    requires forall e :: e in es ==> Owned(e, vars)
    ensures Foreign(es, vars) == []
    decreases |es|
  {
    if es == [] {
    } else {
      assert es[0] in es;
      forall e | e in es[1..] ensures Owned(e, vars) { assert e in es; }
      ForeignNone(es[1..], vars);
    }
  }

  lemma {:induction false} EntriesOwned(vars: seq<Var>)
    requires GoodNames(vars)
    ensures forall e :: e in Entries(vars) ==> Owned(e, vars)
  {
    if vars == [] {
    } else {
      GoodTail(vars);
      EntriesOwned(vars[1..]);
      EntryIsGood(vars[0]);
      forall e | e in Entries(vars) ensures Owned(e, vars) { OwnedSplit(e, vars); }
    }
  }

  function OwnName(j: nat): string
    requires j < 7
  {
    if j == 0 then "SSH_AUTH_SOCK"
    else
      var program := if j <= 2 then "GNUPG_HOME" else if j <= 4 then "GNUPG_SOCKETS" else "AGENT_HOME";
      (if j % 2 == 1 then "WSL_" else "WIN_") + program
  }

  /** The table of setVars, with the values of the configuration. */
  function OwnVars(values: seq<string>): (vars: seq<Var>)
    requires |values| == 7
  {
    seq(7, j requires 0 <= j < 7 => Var(OwnName(j), values[j], j != 0, j % 2 == 1))
  }

  /** Where two of the names differ: in the prefix, else in the program, else in the kind. */
  function Difference(j: nat, k: nat): nat {
    if j == 0 || k == 0 then 0
    else if j % 2 != k % 2 then 1
    else if (j > 4) != (k > 4) then 4
    else 10
  }

  function Letter(j: nat, at: nat): char {
    if j == 0 then 'S'
    else if at == 0 then 'W'
    else if at == 1 then (if j % 2 == 1 then 'S' else 'I')
    else if at == 4 then (if j > 4 then 'A' else 'G')
    else if j == 3 || j == 4 then 'S' else 'H'
  }

  lemma LetterOf(j: nat, at: nat)
    requires j < 7 && at in {0, 1, 4, 10}
    requires j == 0 ==> at < 2
    ensures at < |OwnName(j)| && OwnName(j)[at] == Letter(j, at)
  {
  }

  lemma OwnNameIsEntry(j: nat)
    requires j < 7
    ensures IsEntry(OwnName(j)) && OwnName(j) != WSLENV
  {
    LetterOf(j, 1);
    LetterOf(j, 0);
    if j == 0 {
    } else if j <= 2 {
    } else if j <= 4 {
    } else {
    }
  }

  lemma OwnNamesApart(j: nat, k: nat)
    requires j < 7 && k < 7 && j != k
    ensures !(OwnName(j) <= OwnName(k))
  {
    var at := Difference(j, k);
    LetterOf(j, at);
    LetterOf(k, at);
    assert Letter(j, at) != Letter(k, at);
  }

  /** The names setVars uses can share the list. */
  lemma OwnNamesAreGood(values: seq<string>)
    requires |values| == 7
    ensures GoodNames(OwnVars(values))
  {
    var vars := OwnVars(values);
    forall j | 0 <= j < 7 ensures IsEntry(vars[j].name) && vars[j].name != WSLENV {
      OwnNameIsEntry(j);
    }
    forall j, k | 0 <= j < 7 && 0 <= k < 7 && j != k ensures !(vars[j].name <= vars[k].name) {
      OwnNamesApart(j, k);
    }
  }

  /** The seven names. */
  lemma OwnNamesAre()
    ensures OwnName(0) == "SSH_AUTH_SOCK"
    ensures OwnName(1) == "WSL_" + "GNUPG_HOME" && OwnName(2) == "WIN_" + "GNUPG_HOME"
    ensures OwnName(3) == "WSL_" + "GNUPG_SOCKETS" && OwnName(4) == "WIN_" + "GNUPG_SOCKETS"
    ensures OwnName(5) == "WSL_" + "AGENT_HOME" && OwnName(6) == "WIN_" + "AGENT_HOME"
  {
  }

  lemma EntryLooks(values: seq<string>, j: nat)
    requires |values| == 7 && 0 < j < 7
    ensures Entry(OwnVars(values)[j]) == if j % 2 == 1 then OwnName(j) + "/up" else OwnName(j) + "/u"
  {
    var name := OwnName(j);
    assert name + "/u" + "p" == name + "/up" && name + "/u" + "" == name + "/u";
    hide OwnName;
  }

  /** The entries of the variables from the j-th on. */
  lemma OwnEntriesFrom(values: seq<string>, j: nat)
    requires |values| == 7 && j <= 7 && forall i :: 0 <= i < 7 ==> values[i] != ""
    ensures j == 7 ==> Entries(OwnVars(values)[j..]) == []
    ensures j == 0 ==> Entries(OwnVars(values)) == Entries(OwnVars(values)[1..])
    ensures 0 < j < 7 ==>
      Entries(OwnVars(values)[j..]) == [Entry(OwnVars(values)[j])] + Entries(OwnVars(values)[j + 1..])
  {
    var vars := OwnVars(values);
    if j < 7 {
      assert vars[j..][1..] == vars[j + 1..];
      assert vars[0..] == vars && [] + Entries(vars[1..]) == Entries(vars[1..]);
    }
    hide OwnName, Entry;
  }

  lemma OwnEntries(values: seq<string>)
    requires |values| == 7 && forall i :: 0 <= i < 7 ==> values[i] != ""
    ensures Entries(OwnVars(values))
         == [OwnName(1) + "/up", OwnName(2) + "/u", OwnName(3) + "/up", OwnName(4) + "/u",
             OwnName(5) + "/up", OwnName(6) + "/u"]
  {
    hide *;
    OwnEntriesFrom(values, 0);
    OwnEntriesFrom(values, 1);
    EntryLooks(values, 1);
    OwnEntriesFrom(values, 2);
    EntryLooks(values, 2);
    OwnEntriesFrom(values, 3);
    EntryLooks(values, 3);
    OwnEntriesFrom(values, 4);
    EntryLooks(values, 4);
    OwnEntriesFrom(values, 5);
    EntryLooks(values, 5);
    OwnEntriesFrom(values, 6);
    EntryLooks(values, 6);
    OwnEntriesFrom(values, 7);
  }

  lemma JoinTwo(first: string, more: seq<string>)
    requires more != []
    ensures Join([first] + more) == first + ":" + Join(more)
  {
    assert ([first] + more)[1..] == more;
  }

  /** What the agent's own variables, all with a value, make of an empty registry: seven
      values, and the list with the six names for the two sides, in this order. */
  lemma OwnListLooks(values: seq<string>)
    requires |values| == 7 && forall j :: 0 <= j < 7 ==> values[j] != ""
    ensures var none: nat -> Fault := _ => NoFault;
      var out := PrepareFrom(map[], OwnVars(values), 0, none).0;
      && (forall j :: 0 <= j < 7 ==> OwnName(j) in out && out[OwnName(j)] == values[j])
      && (forall key :: key in out ==> key == WSLENV || exists j :: 0 <= j < 7 && key == OwnName(j))
      && Wslenv(out) == [OwnName(1) + "/up" + ":" + (OwnName(2) + "/u" + ":" + (OwnName(3) + "/up" + ":" +
           (OwnName(4) + "/u" + ":" + (OwnName(5) + "/up" + ":" + (OwnName(6) + "/u")))))]
  {
    var none: nat -> Fault, env: Env, vars := _ => NoFault, map[], OwnVars(values);
    OwnNamesAreGood(values);
    NamesDiffer(vars);
    NothingFails(env, vars, 0, none);
    var out := PrepareFrom(env, vars, 0, none).0;
    assert Registered(vars[1]);
    RawPrepared(env, vars, none);
    EmptyList(env);
    assert vars[..7] == vars;
    OwnEntries(values);
    JoinedEntries(Entries(vars));
    forall j | 0 <= j < 7 ensures OwnName(j) in out && out[OwnName(j)] == values[j] {
      OwnNameIsEntry(j);
      PreparedValue(env, vars, 0, none, OwnName(j));
      assert Sets(vars[j], OwnName(j));
    }
    forall key | key in out && key != WSLENV ensures exists j :: 0 <= j < 7 && key == OwnName(j) {
      PreparedValue(env, vars, 0, none, key);
      assert Touches(vars, 0, 7, none, key);
      var j :| 0 <= j < 7 && Sets(vars[j], key);
    }
  }

  lemma JoinedEntries(es: seq<string>)
    requires |es| == 6
    ensures [] + es == es
    ensures Join(es)
         == es[0] + ":" + (es[1] + ":" + (es[2] + ":" + (es[3] + ":" + (es[4] + ":" + es[5]))))
  {
    hide *;
    JoinLast(es);
    forall j | 0 <= j < 5 ensures Join(es[j..]) == es[j] + ":" + Join(es[j + 1..]) {
      assert es[j..] == [es[j]] + es[j + 1..];
      JoinTwo(es[j], es[j + 1..]);
    }
    assert es[0..] == es;
  }

  lemma JoinLast(es: seq<string>)
    requires |es| == 6
    ensures Join(es[5..]) == es[5]
  {
  }

  /** A value the user had under one of the names is gone after set and clean. */
  lemma PreviousValueLost(values: seq<string>, previous: string)
    requires |values| == 7 && values[1] != ""
    ensures var none: nat -> Fault := _ => NoFault;
      OwnName(1) !in SetAndCleaned(map[OwnName(1) := previous], OwnVars(values), none, none)
  {
    var none: nat -> Fault, env: Env, vars := _ => NoFault, map[OwnName(1) := previous], OwnVars(values);
    OwnNamesAreGood(values);
    NothingFails(env, vars, 0, none);
    OwnNameIsEntry(1);
    assert Sets(vars[1], OwnName(1));
    SetThenClean(env, vars, none, none, OwnName(1));
  }

  /** The first update of the list fails: the new value stays in a registry that had none. */
  lemma NewValueStays(values: seq<string>)
    requires |values| == 7 && values[1] != ""
    ensures var none: nat -> Fault, first: nat -> Fault :=
        _ => NoFault, k => if k == 1 then SetListFails else NoFault;
      SetAndCleaned(map[], OwnVars(values), first, none) == map[OwnName(1) := values[1]]
  {
    var first: nat -> Fault, vars := k => if k == 1 then SetListFails else NoFault, OwnVars(values);
    var ssh := vars[0];
    OwnNameIsEntry(0);
    OwnNamesApart(0, 1);
    var empty: Env := map[];
    var mid := if ssh.value == "" then empty else empty[ssh.name := ssh.value];
    assert PrepareFrom(empty, vars, 0, first) == PrepareFrom(mid, vars, 1, first);
    assert PrepareFrom(mid, vars, 1, first) == (mid[OwnName(1) := values[1]], 1);
  }
}
