/** The registry of fields: one entry per case-folded canonical name, kept by source
    priority in two maps updated in step. */
module FieldRegistry {
  import opened Common

  datatype FieldSource = FromLlm | FromOriginal | FromAutoInjection | FromUpstream | FromDefault | FromSession

  datatype FieldInfo = FieldInfo(name: string, canonicalName: string, source: FieldSource)

  function Priority(source: FieldSource): nat {
    match source
    case FromAutoInjection => 5
    case FromSession => 4
    case FromOriginal => 3
    case FromUpstream => 2
    case FromLlm => 1
    case FromDefault => 0
  }

  // ----- the two maps as a value -----

  datatype State = State(fields: map<string, FieldInfo>, names: map<string, string>)

  function Added(s: State, f: FieldInfo, lower: string -> string): State {
    State(s.fields[f.name := f], s.names[lower(f.canonicalName) := f.name])
  }

  /** The state after offering a field, and whether the field was taken. */
  function Offered(s: State, f: FieldInfo, lower: string -> string): (State, bool) {
    var key := lower(f.canonicalName);
    if key !in s.names || s.names[key] == "" then (Added(s, f, lower), true)
    else if s.names[key] !in s.fields then (Added(s.(names := s.names - {key}), f, lower), true)
    else if Priority(s.fields[s.names[key]].source) >= Priority(f.source) then (s, false)
    else (Added(s.(fields := s.fields - {s.names[key]}), f, lower), true)
  }

  class Registry {
    var fields: map<string, FieldInfo>
    var names: map<string, string>
    const lower: string -> string

    constructor (lower: string -> string)
      ensures Now() == State(map[], map[]) && this.lower == lower
    {
      this.lower := lower;
      fields, names := map[], map[];
    }

    function Now(): State
      reads this
    {
      State(fields, names)
    }

    method AddField(f: FieldInfo)
      modifies this
      ensures Now() == Added(old(Now()), f, lower)
    {
      fields := fields[f.name := f];
      names := names[lower(f.canonicalName) := f.name];
    }

    method AddFieldWithPriority(f: FieldInfo) returns (taken: bool)
      modifies this
      ensures (Now(), taken) == Offered(old(Now()), f, lower)
      ensures Bijective(old(Now()), lower) && Plain(f) ==> Bijective(Now(), lower)
    {
      if Bijective(Now(), lower) && Plain(f) {
        OfferKeepsBijection(Now(), f, lower);
      }
      var key := lower(f.canonicalName);
      if key in names && names[key] != "" {
        var existing := names[key];
        if existing !in fields {
          names := names - {key};
          AddField(f);
          return true;
        }
        if Priority(fields[existing].source) >= Priority(f.source) {
          return false;
        }
        fields := fields - {existing};
      }
      AddField(f);
      return true;
    }
  }

  // ----- the invariant -----

  /** The name is the canonical name, and is not empty. */
  predicate Plain(f: FieldInfo) {
    f.name == f.canonicalName && f.name != ""
  }

  /** Fields and case-folded names correspond one to one. */
  ghost predicate Bijective(s: State, lower: string -> string) {
    && (forall n <- s.fields :: Plain(s.fields[n]) && s.fields[n].name == n)
    && (forall n <- s.fields :: lower(n) in s.names && s.names[lower(n)] == n)
    && (forall k <- s.names :: s.names[k] in s.fields && lower(s.names[k]) == k)
  }

  lemma OfferKeepsBijection(s: State, f: FieldInfo, lower: string -> string)
    requires Bijective(s, lower) && Plain(f)
    ensures Bijective(Offered(s, f, lower).0, lower)
  {
  }

  // ----- who wins -----

  function Fold<S, T>(s: S, xs: seq<T>, step: (S, T) -> S): S
    decreases |xs|
  {
    if xs == [] then s else Fold(step(s, xs[0]), xs[1..], step)
  }

  /** What one step keeps, any number of steps keeps. */
  lemma {:induction false} FoldKeeps<S(!new), T(!new)>(
    s: S, before: seq<T>, xs: seq<T>, step: (S, T) -> S, inv: (S, seq<T>) -> bool)
    requires inv(s, before)
    requires forall s: S, b: seq<T>, x: T :: x in xs && inv(s, b) ==> inv(step(s, x), b + [x])
    ensures inv(Fold(s, xs, step), before + xs)
    decreases |xs|
  {
    if xs == [] {
      assert before + xs == before;
    } else {
      assert xs[0] in xs;
      FoldKeeps(step(s, xs[0]), before + [xs[0]], xs[1..], step, inv);
      assert before + [xs[0]] + xs[1..] == before + xs;
    }
  }

  function OfferedAll(s: State, fs: seq<FieldInfo>, lower: string -> string): State {
    Fold(s, fs, (s: State, f: FieldInfo) => Offered(s, f, lower).0)
  }

  /** fs[i] is the first of those of highest priority offered under a key. */
  ghost predicate WinsAt(fs: seq<FieldInfo>, i: nat, key: string, lower: string -> string) {
    && i < |fs| && lower(fs[i].name) == key
    && forall j: nat :: j < |fs| && lower(fs[j].name) == key ==>
         Priority(fs[j].source) < Priority(fs[i].source) || (Priority(fs[j].source) == Priority(fs[i].source) && i <= j)
  }

  ghost predicate Winner(fs: seq<FieldInfo>, key: string, f: FieldInfo, lower: string -> string) {
    exists i: nat :: WinsAt(fs, i, key, lower) && fs[i] == f
  }

  ghost predicate Offers(fs: seq<FieldInfo>, key: string, lower: string -> string) {
    exists f <- fs :: lower(f.name) == key
  }

  /** The registry holds the winner of every key offered, and nothing else. */
  ghost predicate HoldsWinners(s: State, fs: seq<FieldInfo>, lower: string -> string) {
    && (forall k :: k in s.names <==> Offers(fs, k, lower))
    && forall k <- s.names :: s.names[k] in s.fields && Winner(fs, k, s.fields[s.names[k]], lower)
  }

  lemma FirstOfferWins(fs: seq<FieldInfo>, f: FieldInfo, lower: string -> string)
    requires !Offers(fs, lower(f.name), lower)
    ensures Winner(fs + [f], lower(f.name), f, lower)
  {
    assert forall j: nat :: j < |fs| ==> (fs + [f])[j] == fs[j] && fs[j] in fs;
    assert WinsAt(fs + [f], |fs|, lower(f.name), lower);
  }

  lemma HigherOfferWins(fs: seq<FieldInfo>, held: FieldInfo, f: FieldInfo, lower: string -> string)
    requires Winner(fs, lower(f.name), held, lower) && Priority(held.source) < Priority(f.source)
    ensures Winner(fs + [f], lower(f.name), f, lower)
  {
    var i: nat :| WinsAt(fs, i, lower(f.name), lower) && fs[i] == held;
    assert forall j: nat :: j < |fs| ==> (fs + [f])[j] == fs[j];
    assert WinsAt(fs + [f], |fs|, lower(f.name), lower);
  }

  lemma WinnerStays(fs: seq<FieldInfo>, key: string, held: FieldInfo, f: FieldInfo, lower: string -> string)
    requires Winner(fs, key, held, lower)
    requires lower(f.name) == key ==> Priority(held.source) >= Priority(f.source)
    ensures Winner(fs + [f], key, held, lower)
  {
    var i: nat :| WinsAt(fs, i, key, lower) && fs[i] == held;
    assert forall j: nat :: j < |fs| ==> (fs + [f])[j] == fs[j];
    assert WinsAt(fs + [f], i, key, lower);
  }

  lemma OneMoreOffer(fs: seq<FieldInfo>, f: FieldInfo, k: string, lower: string -> string)
    ensures Offers(fs + [f], k, lower) <==> Offers(fs, k, lower) || k == lower(f.name)
  {
    assert f in fs + [f] && forall g :: g in fs + [f] <==> g in fs || g == f;
  }

  /** An offer that is taken leaves the other keys and their fields alone. */
  lemma OtherKeysStand(s: State, f: FieldInfo, k: string, lower: string -> string)
    requires Bijective(s, lower) && Plain(f) && k in s.names && k != lower(f.name)
    ensures var s1 := Offered(s, f, lower).0;
            k in s1.names && s1.names[k] == s.names[k] && s.names[k] in s1.fields
            && s1.fields[s.names[k]] == s.fields[s.names[k]]
  {
    assert lower(s.names[k]) == k;
  }

  lemma OfferKeepsWinner(s: State, fs: seq<FieldInfo>, f: FieldInfo, k: string, lower: string -> string)
    requires Bijective(s, lower) && HoldsWinners(s, fs, lower) && Plain(f)
    requires k in Offered(s, f, lower).0.names
    ensures var s1 := Offered(s, f, lower).0;
            s1.names[k] in s1.fields && Winner(fs + [f], k, s1.fields[s1.names[k]], lower)
  {
    var key := lower(f.name);
    if k != key {
      assert k in s.names;
      OtherKeysStand(s, f, k, lower);
      WinnerStays(fs, k, s.fields[s.names[k]], f, lower);
    } else if !Offered(s, f, lower).1 {
      WinnerStays(fs, k, s.fields[s.names[k]], f, lower);
    } else if key in s.names {
      HigherOfferWins(fs, s.fields[s.names[key]], f, lower);
    } else {
      FirstOfferWins(fs, f, lower);
    }
  }

  lemma OfferKeepsWinners(s: State, fs: seq<FieldInfo>, f: FieldInfo, lower: string -> string)
    requires Bijective(s, lower) && HoldsWinners(s, fs, lower) && Plain(f)
    ensures HoldsWinners(Offered(s, f, lower).0, fs + [f], lower)
  {
    var s1 := Offered(s, f, lower).0;
    forall k: string
      ensures k in s1.names <==> Offers(fs + [f], k, lower)
    {
      OneMoreOffer(fs, f, k, lower);
    }
    forall k | k in s1.names
      ensures s1.names[k] in s1.fields && Winner(fs + [f], k, s1.fields[s1.names[k]], lower)
    {
      OfferKeepsWinner(s, fs, f, k, lower);
    }
  }

  /** Over any sequence of offers the maps stay in bijection, and each case-folded name holds
      the first-offered field among those of highest priority. */
  lemma RegistryHoldsWinners(fs: seq<FieldInfo>, lower: string -> string)
    requires forall f <- fs :: Plain(f)
    ensures Bijective(OfferedAll(State(map[], map[]), fs, lower), lower)
    ensures HoldsWinners(OfferedAll(State(map[], map[]), fs, lower), fs, lower)
  {
    var step := (s: State, f: FieldInfo) => Offered(s, f, lower).0;
    var inv := (s: State, b: seq<FieldInfo>) => Bijective(s, lower) && HoldsWinners(s, b, lower);
    forall s: State, b: seq<FieldInfo>, f: FieldInfo | f in fs && inv(s, b)
      ensures inv(step(s, f), b + [f])
    {
      OfferKeepsBijection(s, f, lower);
      OfferKeepsWinners(s, b, f, lower);
    }
    var none: seq<FieldInfo> := [];
    assert forall k :: !Offers(none, k, lower);
    assert HoldsWinners(State(map[], map[]), none, lower);
    FoldKeeps(State(map[], map[]), none, fs, step, inv);
    assert [] + fs == fs;
  }

  /** The key of an offer leads to a field of at least its priority, so it is refused. */
  predicate Outranked(s: State, g: FieldInfo, lower: string -> string) {
    var key := lower(g.canonicalName);
    key in s.names && s.names[key] != "" && s.names[key] in s.fields &&
    Priority(s.fields[s.names[key]].source) >= Priority(g.source)
  }

  /** Whatever the names: an auto-injected field survives an offer exactly when the offer
      has another name, is the field itself, or is outranked under its own key. */
  lemma AutoInjectedSurvivesJustWhen(s: State, f: FieldInfo, g: FieldInfo, lower: string -> string)
    requires f.name in s.fields && s.fields[f.name] == f && f.source == FromAutoInjection
    ensures var s1 := Offered(s, g, lower).0;
            f.name in s1.fields && s1.fields[f.name] == f
            <==> g.name != f.name || g == f || Outranked(s, g, lower)
  {
  }

  /** An auto-injected field, once in, stays whatever is offered next. */
  lemma AutoInjectedStays(s: State, f: FieldInfo, more: seq<FieldInfo>, lower: string -> string)
    requires Bijective(s, lower) && forall g <- more :: Plain(g)
    requires f.name in s.fields && s.fields[f.name] == f && f.source == FromAutoInjection
    ensures var s1 := OfferedAll(s, more, lower); f.name in s1.fields && s1.fields[f.name] == f
  {
    var step := (s: State, g: FieldInfo) => Offered(s, g, lower).0;
    var inv := (s: State, b: seq<FieldInfo>) => Bijective(s, lower) && f.name in s.fields && s.fields[f.name] == f;
    forall s: State, b: seq<FieldInfo>, g: FieldInfo | g in more && inv(s, b)
      ensures inv(step(s, g), b + [g])
    {
      OfferKeepsBijection(s, g, lower);
      AutoInjectedSurvivesJustWhen(s, f, g, lower);
    }
    FoldKeeps(s, [], more, step, inv);
  }

  /** So it survives a sequence of offers in which no other field takes its name without
      being outranked when its turn comes. */
  lemma {:induction false} AutoInjectedSurvivesAll(s: State, f: FieldInfo, more: seq<FieldInfo>, lower: string -> string)
    requires f.name in s.fields && s.fields[f.name] == f && f.source == FromAutoInjection
    requires forall i :: 0 <= i < |more| && more[i].name == f.name && more[i] != f ==>
               Outranked(OfferedAll(s, more[..i], lower), more[i], lower)
    ensures var s1 := OfferedAll(s, more, lower); f.name in s1.fields && s1.fields[f.name] == f
  {
    if more != [] {
      var init, last := more[..|more| - 1], more[|more| - 1];
      forall i | 0 <= i < |init| ensures init[i] == more[i] && init[..i] == more[..i] {
      }
      AutoInjectedSurvivesAll(s, f, init, lower);
      FoldSnoc(s, init, last, (s: State, f: FieldInfo) => Offered(s, f, lower).0);
      assert more == init + [last];
      AutoInjectedSurvivesJustWhen(OfferedAll(s, init, lower), f, last, lower);
    }
  }

  lemma {:induction false} FoldSnoc<S(!new), T(!new)>(s: S, xs: seq<T>, x: T, step: (S, T) -> S)
    ensures Fold(s, xs + [x], step) == step(Fold(s, xs, step), x)
    decreases |xs|
  {
    if xs == [] {
      assert xs + [x] == [x] && [x][1..] == [];
    } else {
      FoldSnoc(step(s, xs[0]), xs[1..], x, step);
      assert (xs + [x])[0] == xs[0] && (xs + [x])[1..] == xs[1..] + [x];
    }
  }

  /** Why the name must be the canonical name: a guess under another canonical name, but the
      same name, overwrites an auto-injected field. */
  lemma AliasDisplacesAutoInjected(lower: string -> string)
    requires lower("x") != lower("y")
    ensures var injected, guessed := FieldInfo("a", "x", FromAutoInjection), FieldInfo("a", "y", FromLlm);
            var s := OfferedAll(State(map[], map[]), [injected, guessed], lower);
            "a" in s.fields && s.fields["a"] == guessed
  {
    var injected, guessed := FieldInfo("a", "x", FromAutoInjection), FieldInfo("a", "y", FromLlm);
    var s0 := State(map[], map[]);
    assert [injected, guessed][1..] == [guessed] && [guessed][1..] == [];
    var s1 := Offered(s0, injected, lower).0;
    assert s1 == Added(s0, injected, lower) && lower("y") !in s1.names;
    var s2 := Offered(s1, guessed, lower).0;
    assert s2 == Added(s1, guessed, lower);
    var step := (s: State, f: FieldInfo) => Offered(s, f, lower).0;
    assert Fold(s0, [injected, guessed], step) == Fold(s1, [guessed], step) == Fold(s2, [], step) == s2;
  }
}
