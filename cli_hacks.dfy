/** The list operations of `src/sublimaku/cli_hacks.py`: pulling the
    provider-configuration options out of a command's parameter list, putting
    them back where they were, and choosing the Jimaku API key. */
module CliHacks {
  import opened Values

  /** A click parameter: its identity and its name. */
  datatype Param = Param(uid: nat, name: string)

  /** The two tables of an option group, keyed by the decorated callback:
      the option names of the group and its title option. */
  datatype OptionGroup = OptionGroup(options: map<nat, set<string>>, groupTitleOptions: map<nat, Param>)

  datatype CliError = KeyError | IndexError

  // ---------------------------------------------------------------------
  // isolate_group_params
  // ---------------------------------------------------------------------

  /** The name is one of the options of the group of `key`. The options
      table of an option group is a `defaultdict`, so a callback it has never
      seen reads as having no options. */
  predicate IsOption(g: OptionGroup, key: nat, name: string) {
    key in g.options && name in g.options[key]
  }

  /** A parameter belongs to the group of `key`: its name is one of the
      group's options, or it is the group's title option. */
  predicate Member(g: OptionGroup, key: nat, p: Param) {
    IsOption(g, key, p.name) || (key in g.groupTitleOptions && p == g.groupTitleOptions[key])
  }

  function IsMember(g: OptionGroup, key: nat): Param -> bool {
    p => Member(g, key, p)
  }

  function IsOther(g: OptionGroup, key: nat): Param -> bool {
    p => !Member(g, key, p)
  }

  /** The members of `params`, in order. */
  function Members(g: OptionGroup, key: nat, params: seq<Param>): seq<Param> {
    Filter(IsMember(g, key), params)
  }

  /** The other parameters, in order. */
  function Others(g: OptionGroup, key: nat, params: seq<Param>): seq<Param> {
    Filter(IsOther(g, key), params)
  }

  /** The test of the loop for one parameter: the options table is looked
      up first, the title table (a plain mapping) only when the name is not
      an option, and a key missing from it raises. */
  function Classify(g: OptionGroup, key: nat, p: Param): (r: Result<bool, CliError>)
    ensures r.Ok? ==> r.value == Member(g, key, p)
    ensures r.Err? <==> !IsOption(g, key, p.name) && key !in g.groupTitleOptions
  {
    if IsOption(g, key, p.name) then Ok(true)
    else if key !in g.groupTitleOptions then Err(KeyError)
    else Ok(p == g.groupTitleOptions[key])
  }

  /** Some parameter's lookup raises. */
  predicate RaisesKeyError(g: OptionGroup, key: nat, params: seq<Param>) {
    exists i | 0 <= i < |params| :: Classify(g, key, params[i]).Err?
  }

  /** The index of the first element satisfying `p`. */
  function FirstIndex<T>(p: T -> bool, xs: seq<T>): (i: nat)
    requires exists k | 0 <= k < |xs| :: p(xs[k])
    ensures i < |xs| && p(xs[i])
    ensures forall j | 0 <= j < i :: !p(xs[j])
    decreases |xs|
  {
    if p(xs[0]) then 0
    else
      assert exists k | 0 <= k < |xs[1..]| :: p(xs[1..][k]) by {
        var k :| 0 <= k < |xs| && p(xs[k]);
        assert p(xs[1..][k - 1]);
      }
      1 + FirstIndex(p, xs[1..])
  }

  /** An index holding the first element that satisfies `p` is `FirstIndex`. */
  lemma {:induction false} FirstIndexAt<T>(p: T -> bool, xs: seq<T>, i: nat)
    requires i < |xs| && p(xs[i])
    requires forall j | 0 <= j < i :: !p(xs[j])
    ensures FirstIndex(p, xs) == i
    decreases i
  {
    if i > 0 {
      assert !p(xs[0]);
      assert p(xs[1..][i - 1]);
      FirstIndexAt(p, xs[1..], i - 1);
    }
  }

  /** What `isolate_group_params` returns: the index of the first member,
      the members and the other parameters. */
  function Isolated(g: OptionGroup, key: nat, params: seq<Param>): Result<(nat, seq<Param>, seq<Param>), CliError> {
    if RaisesKeyError(g, key, params) then Err(KeyError)
    else if forall i | 0 <= i < |params| :: !Member(g, key, params[i]) then Err(IndexError)
    else Ok((FirstIndex(IsMember(g, key), params), Members(g, key, params), Others(g, key, params)))
  }

  /** Unless a lookup raises, `isolate_group_params` fails with `IndexError`
      exactly when there is no member; otherwise every parameter lands in
      exactly one of the two lists, each list holds only its own kind, and
      the index is that of the first member. */
  lemma IsolatedPartition(g: OptionGroup, key: nat, params: seq<Param>)
    ensures Isolated(g, key, params) == Err(IndexError) <==>
      !RaisesKeyError(g, key, params) && forall i | 0 <= i < |params| :: !Member(g, key, params[i])
    ensures Isolated(g, key, params).Ok? ==>
      && var (start, group, rest) := Isolated(g, key, params).value;
      && start < |params| && Member(g, key, params[start])
      && (forall j | 0 <= j < start :: !Member(g, key, params[j]))
      && multiset(group) + multiset(rest) == multiset(params)
      && (forall p | p in group :: Member(g, key, p))
      && (forall p | p in rest :: !Member(g, key, p))
  {
    FilterSubset(IsMember(g, key), params);
    FilterSubset(IsOther(g, key), params);
    FilterPartition(IsMember(g, key), IsOther(g, key), params);
  }

  /** Both lists keep the input order: the members and the others of a
      concatenation are those of each part, one after the other. */
  lemma IsolatedKeepsOrder(g: OptionGroup, key: nat, xs: seq<Param>, ys: seq<Param>)
    ensures Members(g, key, xs + ys) == Members(g, key, xs) + Members(g, key, ys)
    ensures Others(g, key, xs + ys) == Others(g, key, xs) + Others(g, key, ys)
  {
    FilterAppend(IsMember(g, key), xs, ys);
    FilterAppend(IsOther(g, key), xs, ys);
  }

  /** One more parameter extends the members or the others by itself. */
  lemma IsolateStep(g: OptionGroup, key: nat, params: seq<Param>, i: nat)
    requires i < |params|
    ensures Members(g, key, params[..i + 1]) ==
      Members(g, key, params[..i]) + if Member(g, key, params[i]) then [params[i]] else []
    ensures Others(g, key, params[..i + 1]) ==
      Others(g, key, params[..i]) + if Member(g, key, params[i]) then [] else [params[i]]
    ensures Members(g, key, params[..i]) == [] ==> forall j | 0 <= j < i :: !Member(g, key, params[j])
  {
    assert params[..i + 1][..i] == params[..i];
    if Members(g, key, params[..i]) == [] {
      FilterEmpty(IsMember(g, key), params[..i]);
    }
  }

  /** A parameter whose lookup raises makes the whole call raise. */
  lemma IsolatedKeyError(g: OptionGroup, key: nat, params: seq<Param>, i: nat)
    requires i < |params|
    requires Classify(g, key, params[i]).Err?
    ensures Isolated(g, key, params) == Err(KeyError)
  {
  }

  /** With every lookup answered and no member, the call fails with `IndexError`. */
  lemma IsolatedNoMember(g: OptionGroup, key: nat, params: seq<Param>)
    requires forall j | 0 <= j < |params| :: Classify(g, key, params[j]).Ok?
    requires Members(g, key, params) == []
    ensures Isolated(g, key, params) == Err(IndexError)
  {
    FilterEmpty(IsMember(g, key), params);
  }

  /** With every lookup answered and the first member at `start`, the call
      returns `start` and the two lists. */
  lemma IsolatedFound(g: OptionGroup, key: nat, params: seq<Param>, start: nat)
    requires forall j | 0 <= j < |params| :: Classify(g, key, params[j]).Ok?
    requires start < |params| && Member(g, key, params[start])
    requires forall j | 0 <= j < start :: !Member(g, key, params[j])
    ensures Isolated(g, key, params) == Ok((start, Members(g, key, params), Others(g, key, params)))
  {
    assert IsMember(g, key)(params[start]);
    FirstIndexAt(IsMember(g, key), params, start);
  }

  /** What the loop knows after scanning `params[..i]`: every lookup so far
      was answered, the two lists hold the members and the others of the
      prefix, and `positions` starts with the index of the first member. */
  ghost predicate Scanned(g: OptionGroup, key: nat, params: seq<Param>, i: nat,
                          group: seq<Param>, rest: seq<Param>, positions: seq<nat>) {
    && i <= |params|
    && (forall j | 0 <= j < i :: Classify(g, key, params[j]).Ok?)
    && group == Members(g, key, params[..i])
    && rest == Others(g, key, params[..i])
    && |positions| == |group|
    && (positions != [] ==>
          positions[0] < i && Member(g, key, params[positions[0]]) &&
          forall j | 0 <= j < positions[0] :: !Member(g, key, params[j]))
  }

  /** One answered lookup extends the scan by one parameter. */
  lemma ScanStep(g: OptionGroup, key: nat, params: seq<Param>, i: nat,
                 group: seq<Param>, rest: seq<Param>, positions: seq<nat>, m: bool)
    requires Scanned(g, key, params, i, group, rest, positions) && i < |params|
    requires Classify(g, key, params[i]) == Ok(m)
    ensures
      Scanned(g, key, params, i + 1,
              if m then group + [params[i]] else group,
              if m then rest else rest + [params[i]],
              if m then positions + [i] else positions)
  {
    IsolateStep(g, key, params, i);
  }

  /** A scan of the whole list settles the call: `IndexError` without a
      member, otherwise the first member's index and the two lists. */
  lemma ScanDone(g: OptionGroup, key: nat, params: seq<Param>,
                 group: seq<Param>, rest: seq<Param>, positions: seq<nat>)
    requires Scanned(g, key, params, |params|, group, rest, positions)
    ensures positions == [] ==> Isolated(g, key, params) == Err(IndexError)
    ensures positions != [] ==> Isolated(g, key, params) == Ok((positions[0], group, rest))
  {
    assert params[..|params|] == params;
    if positions == [] {
      IsolatedNoMember(g, key, params);
    } else {
      IsolatedFound(g, key, params, positions[0]);
    }
  }

  /** The loop of `isolate_group_params` over a copy of the caller's list. */
  method IsolateGroupParams(key: nat, params: seq<Param>, g: OptionGroup)
    returns (r: Result<(nat, seq<Param>, seq<Param>), CliError>)
    ensures r == Isolated(g, key, params)
  {
    var rest: seq<Param> := [];
    var group: seq<Param> := [];
    var positions: seq<nat> := [];
    var i: nat := 0;
    while i < |params|
      invariant Scanned(g, key, params, i, group, rest, positions)
    {
      var inGroup := Classify(g, key, params[i]);
      if inGroup.Err? {
        IsolatedKeyError(g, key, params, i);
        return Err(KeyError);
      }
      var m := inGroup.value;
      ScanStep(g, key, params, i, group, rest, positions, m);
      group := if m then group + [params[i]] else group;
      rest := if m then rest else rest + [params[i]];
      positions := if m then positions + [i] else positions;
      i := i + 1;
    }
    ScanDone(g, key, params, group, rest, positions);
    if positions == [] {
      return Err(IndexError);
    }
    return Ok((positions[0], group, rest));
  }

  // ---------------------------------------------------------------------
  // The splice of group()
  // ---------------------------------------------------------------------

  /** `xs[at:at] = ys`: `ys` inserted before index `at`, or at the end when
      `at` is past it. */
  function Splice<T>(xs: seq<T>, at: nat, ys: seq<T>): (r: seq<T>)
    ensures |r| == |xs| + |ys|
    ensures var k := if at <= |xs| then at else |xs|;
      && r[..k] == xs[..k]
      && r[k..k + |ys|] == ys
      && r[k + |ys|..] == xs[k..]
  {
    var k := if at <= |xs| then at else |xs|;
    var r := xs[..k] + ys + xs[k..];
    assert r[..k] == xs[..k];
    assert r[k..k + |ys|] == ys;
    assert r[k + |ys|..] == xs[k..];
    r
  }

  /** Splicing at the end of a prefix puts the new list between the prefix
      and the rest. */
  lemma SpliceBetween<T>(xs: seq<T>, ys: seq<T>, zs: seq<T>)
    ensures Splice(xs + zs, |xs|, ys) == xs + ys + zs
  {
    var r := Splice(xs + zs, |xs|, ys);
    assert (xs + zs)[..|xs|] == xs && (xs + zs)[|xs|..] == zs;
    assert r == r[..|xs|] + r[|xs|..|xs| + |ys|] + r[|xs| + |ys|..];
  }

  /** The members of `params` are exactly those at indices `start` to
      `start + n`. */
  ghost predicate Contiguous(g: OptionGroup, key: nat, params: seq<Param>, start: nat, n: nat) {
    && start + n <= |params|
    && forall j | 0 <= j < |params| :: (start <= j < start + n <==> Member(g, key, params[j]))
  }

  /** A contiguous group is its own block of the list, and the others are
      what stands before and after it. */
  lemma ContiguousFilters(g: OptionGroup, key: nat, params: seq<Param>, start: nat, n: nat)
    requires Contiguous(g, key, params, start, n)
    ensures Members(g, key, params) == params[start..start + n]
    ensures Others(g, key, params) == params[..start] + params[start + n..]
  {
    var member, other := IsMember(g, key), IsOther(g, key);
    var before, block, after := params[..start], params[start..start + n], params[start + n..];
    SliceThree(params, start, start + n);
    forall i | 0 <= i < |before| ensures !member(before[i]) && other(before[i]) {
      assert before[i] == params[i];
    }
    forall i | 0 <= i < |block| ensures member(block[i]) && !other(block[i]) {
      assert block[i] == params[start + i];
    }
    forall i | 0 <= i < |after| ensures !member(after[i]) && other(after[i]) {
      assert after[i] == params[start + n + i];
    }
    FilterMiddle(member, before, block, after);
    FilterOutside(other, before, block, after);
  }

  /** When the members of the group stand together in the list, isolating
      them and splicing a replacement in at the first index puts the
      replacement exactly where the group was; splicing the group itself
      back restores the list. */
  lemma SpliceRestoresOrder(g: OptionGroup, key: nat, params: seq<Param>, start: nat, n: nat, replacement: seq<Param>)
    requires Contiguous(g, key, params, start, n) && n > 0
    requires !RaisesKeyError(g, key, params)
    ensures Isolated(g, key, params).Ok?
    ensures
      var (s, group, rest) := Isolated(g, key, params).value;
      && s == start
      && group == params[start..start + n]
      && Splice(rest, s, replacement) == params[..start] + replacement + params[start + n..]
      && Splice(rest, s, group) == params
  {
    ContiguousFilters(g, key, params, start, n);
    IsolatedFound(g, key, params, start);
    var before, block, after := params[..start], params[start..start + n], params[start + n..];
    SpliceBetween(before, replacement, after);
    SpliceBetween(before, block, after);
    SliceThree(params, start, start + n);
  }

  /** The recombination of `group()`: isolate the group, let the option-group
      decorator turn it into its new list, and splice that list back in at
      the index of the first member. */
  method RegroupParams(key: nat, params: seq<Param>, g: OptionGroup, decorate: seq<Param> -> seq<Param>)
    returns (r: Result<seq<Param>, CliError>)
    ensures r.Err? <==> Isolated(g, key, params).Err?
    ensures r.Ok? ==>
      var (s, group, rest) := Isolated(g, key, params).value;
      r.value == Splice(rest, s, decorate(group))
    ensures forall start: nat, n: nat | Contiguous(g, key, params, start, n) && n > 0 && r.Ok? ::
      r.value == params[..start] + decorate(params[start..start + n]) + params[start + n..]
  {
    var isolated := IsolateGroupParams(key, params, g);
    if isolated.Err? {
      return Err(isolated.error);
    }
    var (start, group, rest) := isolated.value;
    var regrouped := decorate(group);
    rest := Splice(rest, start, regrouped);
    r := Ok(rest);
    forall s: nat, n: nat | Contiguous(g, key, params, s, n) && n > 0
      ensures rest == params[..s] + decorate(params[s..s + n]) + params[s + n..]
    {
      SpliceRestoresOrder(g, key, params, s, n, regrouped);
    }
  }

  // ---------------------------------------------------------------------
  // configure_jimaku
  // ---------------------------------------------------------------------

  /** The API key to keep: the command-line argument when truthy, otherwise
      the key already configured, or `None`. */
  function ChooseApiKey(arg: Option<string>, config: map<string, Option<string>>): (k: Option<string>)
    ensures TruthyText(arg) ==> k == arg
    ensures !TruthyText(arg) ==> k == GetOrNone(config, "apikey")
  {
    if TruthyText(arg) then arg else GetOrNone(config, "apikey")
  }

  /** Choosing the key again over the configuration it produced changes
      nothing: configuring twice with the same argument is configuring once. */
  lemma ChooseApiKeyIdempotent(arg: Option<string>, config: map<string, Option<string>>)
    ensures
      var k := ChooseApiKey(arg, config);
      ChooseApiKey(arg, config["apikey" := k]) == k
  {
  }

  /** The part of click's context `configure_jimaku` uses: the provider
      configurations, each a dictionary of options. */
  class ClickContext {
    var providerConfigs: map<string, map<string, Option<string>>>

    constructor (providerConfigs: map<string, map<string, Option<string>>>)
      ensures this.providerConfigs == providerConfigs
    {
      this.providerConfigs := providerConfigs;
    }
  }

  /** `configure_jimaku`: take `jimaku` out of the keyword arguments and store
      the chosen key into the Jimaku configuration when one exists; without
      one the key goes into a new dictionary that nothing keeps. */
  method ConfigureJimaku(ctx: ClickContext, kwargs: map<string, Option<string>>)
    returns (r: Result<map<string, Option<string>>, CliError>)
    modifies ctx
    ensures "jimaku" !in kwargs ==> r == Err(KeyError) && ctx.providerConfigs == old(ctx.providerConfigs)
    ensures "jimaku" in kwargs ==> r == Ok(kwargs - {"jimaku"})
    ensures "jimaku" in kwargs && "jimaku" in old(ctx.providerConfigs) ==>
      var config := old(ctx.providerConfigs)["jimaku"];
      ctx.providerConfigs == old(ctx.providerConfigs)["jimaku" := config["apikey" := ChooseApiKey(kwargs["jimaku"], config)]]
    ensures "jimaku" !in old(ctx.providerConfigs) ==> ctx.providerConfigs == old(ctx.providerConfigs)
  {
    if "jimaku" !in kwargs {
      return Err(KeyError);
    }
    var jimakuArgs := kwargs["jimaku"];
    var rest := kwargs - {"jimaku"};
    if "jimaku" in ctx.providerConfigs {
      var config := ctx.providerConfigs["jimaku"];
      ctx.providerConfigs := ctx.providerConfigs["jimaku" := config["apikey" := ChooseApiKey(jimakuArgs, config)]];
    }
    return Ok(rest);
  }

  /** A key given on the command line replaces the configured one; an empty
      one keeps it. */
  method ConfigureScenario() returns (given: Option<string>, kept: Option<string>)
    ensures given == Some("cli-key")
    ensures kept == Some("stored-key")
  {
    var ctx := new ClickContext(map["jimaku" := map["apikey" := Some("stored-key")]]);
    var r1 := ConfigureJimaku(ctx, map["jimaku" := Some("cli-key")]);
    given := ctx.providerConfigs["jimaku"]["apikey"];
    var ctx2 := new ClickContext(map["jimaku" := map["apikey" := Some("stored-key")]]);
    var r2 := ConfigureJimaku(ctx2, map["jimaku" := Some("")]);
    kept := ctx2.providerConfigs["jimaku"]["apikey"];
  }
}
