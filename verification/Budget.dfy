/**
  The complexity budget: limits with defaults, a check against the measured modules, and a
  ratchet that only lets limits fall.
 */
module ComplexityBudget {
  import opened Common

  const DEFAULT_MAX_LINES := 600
  const DEFAULT_MAX_PARAMS := 10
  const DEFAULT_MAX_CALLABLE_LINES := 150

  datatype Entry = Entry(maxLines: int, maxParams: map<string, int>, maxCallableLines: map<string, int>,
                         renamedFrom: Option<string>)

  type Budget = map<string, Entry>

  datatype Callable = Callable(name: string, params: int, lines: int)

  datatype Module = Module(path: string, lines: int, callables: seq<Callable>)

  /******* Effective limits *******/

  function Get(limits: map<string, int>, name: string, default_: int): int {
    if name in limits then limits[name] else default_
  }

  function LinesLimit(b: Budget, path: string): int {
    if path in b then b[path].maxLines else DEFAULT_MAX_LINES
  }

  function ParamsLimits(b: Budget, path: string): map<string, int> {
    if path in b then b[path].maxParams else map[]
  }

  function CallableLinesLimits(b: Budget, path: string): map<string, int> {
    if path in b then b[path].maxCallableLines else map[]
  }

  function ParamsLimit(b: Budget, path: string, name: string): int {
    Get(ParamsLimits(b, path), name, DEFAULT_MAX_PARAMS)
  }

  function CallableLinesLimit(b: Budget, path: string, name: string): int {
    Get(CallableLinesLimits(b, path), name, DEFAULT_MAX_CALLABLE_LINES)
  }

  // What a limit is for: the lines of a module, or the parameters or lines of a callable.
  datatype Kind = OfModule | OfParams(name: string) | OfCallable(name: string)

  function Limit(b: Budget, path: string, kind: Kind): int {
    match kind
    case OfModule => LinesLimit(b, path)
    case OfParams(name) => ParamsLimit(b, path, name)
    case OfCallable(name) => CallableLinesLimit(b, path, name)
  }

  // No limit of a at one path is above the limit of b at another.
  ghost predicate IsBelowAt(a: Budget, path: string, b: Budget, basePath: string) {
    forall kind: Kind :: Limit(a, path, kind) <= Limit(b, basePath, kind)
  }

  // The order of budgets: every effective limit is pointwise no larger.
  ghost predicate IsBelow(a: Budget, b: Budget) {
    forall path :: IsBelowAt(a, path, b, path)
  }

  /******* The ratchet *******/

  datatype Raised =
    | Lines(path: string, base: int, current: int)
    | Params(path: string, name: string, base: int, current: int)
    | CallableLines(path: string, name: string, base: int, current: int)

  function BasePath(current: Budget, path: string): string {
    if path in current && current[path].renamedFrom.Some? && current[path].renamedFrom.value != ""
    then current[path].renamedFrom.value
    else path
  }

  function MovedSources(current: Budget): set<string> {
    set path | path in current && current[path].renamedFrom.Some? :: current[path].renamedFrom.value
  }

  // A path that only appears as the former name of another.
  predicate IsMovedAway(current: Budget, path: string) {
    path !in current && path in MovedSources(current)
  }

  ghost predicate IsRaised(current: Budget, base: Budget, v: Raised) {
    && !IsMovedAway(current, v.path) && v.current > v.base
    && var basePath := BasePath(current, v.path);
       match v
       case Lines(path, b, c) => b == LinesLimit(base, basePath) && c == LinesLimit(current, path)
       case Params(path, name, b, c) => b == ParamsLimit(base, basePath, name) && c == ParamsLimit(current, path, name)
       case CallableLines(path, name, b, c) =>
         b == CallableLinesLimit(base, basePath, name) && c == CallableLinesLimit(current, path, name)
  }

  // The ratchet reports nothing.
  ghost predicate Passes(current: Budget, base: Budget) {
    forall v: Raised :: !IsRaised(current, base, v)
  }

  predicate IsRenameFree(b: Budget) {
    forall path | path in b :: b[path].renamedFrom.None?
  }

  // The names under which two mappings hold limits, with those that were raised.
  method RaisedNames(current: map<string, int>, base: map<string, int>, default_: int)
    returns (raised: seq<(string, int, int)>)
    ensures forall r: (string, int, int) ::
              r in raised <==> && r.1 == Get(base, r.0, default_) && r.2 == Get(current, r.0, default_) && r.2 > r.1
  {
    raised := [];
    var pending := current.Keys + base.Keys;
    while pending != {}
      invariant pending <= current.Keys + base.Keys
      invariant forall r: (string, int, int) ::
                  r in raised <==> && r.0 in current.Keys + base.Keys - pending
                                   && r.1 == Get(base, r.0, default_) && r.2 == Get(current, r.0, default_) && r.2 > r.1
    {
      ghost var some := Pick(pending);
      assert some in pending;
      var name :| name in pending;
      var currentLimit, baseLimit := Get(current, name, default_), Get(base, name, default_);
      if currentLimit > baseLimit { raised := raised + [(name, baseLimit, currentLimit)]; }
      pending := pending - {name};
    }
  }

  ghost predicate IsRaisedAt(current: Budget, base: Budget, paths: set<string>, v: Raised) {
    v.path in paths && IsRaised(current, base, v)
  }

  // All limits raised at one path.
  method RaisedAt(current: Budget, base: Budget, path: string) returns (raised: seq<Raised>)
    requires !IsMovedAway(current, path)
    ensures forall v: Raised :: v in raised <==> IsRaisedAt(current, base, {path}, v)
  {
    var basePath := BasePath(current, path);
    raised := [];
    if LinesLimit(current, path) > LinesLimit(base, basePath) {
      raised := [Lines(path, LinesLimit(base, basePath), LinesLimit(current, path))];
    }
    var params := RaisedNames(ParamsLimits(current, path), ParamsLimits(base, basePath), DEFAULT_MAX_PARAMS);
    for i := 0 to |params|
      invariant forall v: Raised :: v in raised <==>
                  && IsRaisedAt(current, base, {path}, v)
                  && (v.Lines? || (v.Params? && (v.name, v.base, v.current) in params[..i]))
    {
      raised := raised + [Params(path, params[i].0, params[i].1, params[i].2)];
      assert params[i] in params && params[..i + 1] == params[..i] + [params[i]];
    }
    assert params[..|params|] == params;
    var lines := RaisedNames(CallableLinesLimits(current, path), CallableLinesLimits(base, basePath),
                             DEFAULT_MAX_CALLABLE_LINES);
    for i := 0 to |lines|
      invariant forall v: Raised :: v in raised <==>
                  && IsRaisedAt(current, base, {path}, v)
                  && (!v.CallableLines? || (v.name, v.base, v.current) in lines[..i])
    {
      raised := raised + [CallableLines(path, lines[i].0, lines[i].1, lines[i].2)];
      assert lines[i] in lines && lines[..i + 1] == lines[..i] + [lines[i]];
    }
    assert lines[..|lines|] == lines;
  }

  // Exactly the raised limits are reported.
  method CheckRatchet(current: Budget, base: Budget) returns (raised: seq<Raised>)
    ensures forall v: Raised :: v in raised <==> IsRaised(current, base, v)
  {
    raised := [];
    var paths := current.Keys + base.Keys;
    var pending := paths;
    while pending != {}
      invariant pending <= paths
      invariant forall v: Raised :: v in raised <==> IsRaisedAt(current, base, paths - pending, v)
    {
      ghost var some := Pick(pending);
      assert some in pending;
      var path :| path in pending;
      if path !in current && path in MovedSources(current) {
        assert forall v: Raised :: v.path == path ==> !IsRaised(current, base, v);
      } else {
        var more := RaisedAt(current, base, path);
        raised := raised + more;
      }
      pending := pending - {path};
    }
    forall v | IsRaised(current, base, v) ensures v.path in paths {
    }
  }

  lemma {:induction false} NothingRaisedIffBelow(current: Budget, base: Budget)
    ensures Passes(current, base)
            <==> forall path :: !IsMovedAway(current, path) ==> IsBelowAt(current, path, base, BasePath(current, path))
  {
    if Passes(current, base) {
      forall path | !IsMovedAway(current, path) ensures IsBelowAt(current, path, base, BasePath(current, path)) {
        NothingRaisedAt(current, base, path);
      }
    }
    if forall path :: !IsMovedAway(current, path) ==> IsBelowAt(current, path, base, BasePath(current, path)) {
      forall v: Raised ensures !IsRaised(current, base, v) {
        var basePath := BasePath(current, v.path);
        var kind := match v case Lines(_, _, _) => OfModule case Params(_, name, _, _) => OfParams(name)
                    case CallableLines(_, name, _, _) => OfCallable(name);
        assert !IsMovedAway(current, v.path) ==> IsBelowAt(current, v.path, base, basePath);
        assert !IsMovedAway(current, v.path) ==> Limit(current, v.path, kind) <= Limit(base, basePath, kind);
      }
    }
  }

  lemma {:induction false} NothingRaisedAt(current: Budget, base: Budget, path: string)
    requires !IsMovedAway(current, path) && Passes(current, base)
    ensures IsBelowAt(current, path, base, BasePath(current, path))
  {
    var basePath := BasePath(current, path);
    forall kind: Kind ensures Limit(current, path, kind) <= Limit(base, basePath, kind) {
      var b, c := Limit(base, basePath, kind), Limit(current, path, kind);
      match kind
      case OfModule => assert !IsRaised(current, base, Lines(path, b, c));
      case OfParams(name) => assert !IsRaised(current, base, Params(path, name, b, c));
      case OfCallable(name) => assert !IsRaised(current, base, CallableLines(path, name, b, c));
    }
  }

  // Without renames the ratchet is the order of budgets.
  lemma {:induction false} RatchetIsOrder(current: Budget, base: Budget)
    requires IsRenameFree(current)
    ensures Passes(current, base) <==> IsBelow(current, base)
  {
    NothingRaisedIffBelow(current, base);
    assert MovedSources(current) == {};
    assert forall path :: BasePath(current, path) == path && !IsMovedAway(current, path);
    if Passes(current, base) {
      forall path ensures IsBelowAt(current, path, base, path) {
        assert IsBelowAt(current, path, base, BasePath(current, path));
      }
    }
    if IsBelow(current, base) {
      forall path ensures IsBelowAt(current, path, base, BasePath(current, path)) {
        assert IsBelowAt(current, path, base, path);
      }
    }
  }

  lemma {:induction false} BelowIsTransitive(a: Budget, b: Budget, c: Budget)
    requires IsBelow(a, b) && IsBelow(b, c)
    ensures IsBelow(a, c)
  {
    forall path ensures IsBelowAt(a, path, c, path) {
      assert IsBelowAt(a, path, b, path) && IsBelowAt(b, path, c, path);
      assert forall kind: Kind :: Limit(a, path, kind) <= Limit(b, path, kind) <= Limit(c, path, kind);
    }
  }

  /******* The ratchet with renames *******/

  // The limits of the path are compared with those of q in the base budget.
  predicate AnswersFor(current: Budget, path: string, q: string) {
    !IsMovedAway(current, path) && BasePath(current, path) == q
  }

  // Some path that answers for q has a limit at least as high as that of q itself.
  ghost predicate IsKept(current: Budget, q: string, kind: Kind) {
    exists path :: AnswersFor(current, path, q) && Limit(current, q, kind) <= Limit(current, path, kind)
  }

  ghost predicate KeepsOrder(current: Budget) {
    forall q, kind: Kind :: IsKept(current, q, kind)
  }

  // Only a path that was renamed, or moved away, can fail to answer for itself.
  lemma {:induction false} UnmovedIsKept(current: Budget, q: string, kind: Kind)
    requires BasePath(current, q) == q && !IsMovedAway(current, q)
    ensures IsKept(current, q, kind)
  {
    assert AnswersFor(current, q, q);
  }

  lemma {:induction false} RenameFreeKeepsOrder(current: Budget)
    requires IsRenameFree(current)
    ensures KeepsOrder(current)
  {
    forall q, kind: Kind ensures IsKept(current, q, kind) { UnmovedIsKept(current, q, kind); }
  }

  lemma {:induction false} KeptMeansBelow(current: Budget, base: Budget, q: string, kind: Kind)
    requires IsKept(current, q, kind) && Passes(current, base)
    ensures Limit(current, q, kind) <= Limit(base, q, kind)
  {
    var path :| AnswersFor(current, path, q) && Limit(current, q, kind) <= Limit(current, path, kind);
    NothingRaisedAt(current, base, path);
    hide Limit;
    assert Limit(current, path, kind) <= Limit(base, q, kind);
  }

  lemma {:induction false} AllKeptMeansBelow(current: Budget, base: Budget)
    requires KeepsOrder(current) && Passes(current, base)
    ensures IsBelow(current, base)
  {
    hide IsKept, Passes, Limit;
    forall q, kind: Kind ensures Limit(current, q, kind) <= Limit(base, q, kind) {
      KeptMeansBelow(current, base, q, kind);
    }
  }

  // Given that nothing is reported, only at renamed paths and former names can a limit have risen.
  lemma {:induction false} OnlyMovedPathsCanRise(current: Budget, base: Budget)
    requires Passes(current, base)
    ensures IsBelow(current, base)
            <==> forall q | IsMovedAway(current, q) || BasePath(current, q) != q :: IsBelowAt(current, q, base, q)
  {
    NothingRaisedIffBelow(current, base);
    if forall q | IsMovedAway(current, q) || BasePath(current, q) != q :: IsBelowAt(current, q, base, q) {
      forall q ensures IsBelowAt(current, q, base, q) {
        assert !IsMovedAway(current, q) ==> IsBelowAt(current, q, base, BasePath(current, q));
      }
    }
  }

  // Along any chain of commits that each pass, the last budget is below the first.
  lemma {:induction false} ChainOnlyFalls(chain: seq<Budget>)
    requires chain != [] && forall i | 0 < i < |chain| :: KeepsOrder(chain[i])
    requires forall i | 0 < i < |chain| :: Passes(chain[i], chain[i - 1])
    ensures IsBelow(chain[|chain| - 1], chain[0])
  {
    hide KeepsOrder, Passes, IsBelowAt;
    var last := |chain| - 1;
    if last > 0 {
      forall i | 0 < i < |chain[..last]| ensures Passes(chain[..last][i], chain[..last][i - 1]) {
        assert Passes(chain[i], chain[i - 1]);
      }
      ChainOnlyFalls(chain[..last]);
      AllKeptMeansBelow(chain[last], chain[last - 1]);
      BelowIsTransitive(chain[last], chain[last - 1], chain[0]);
    } else {
      BelowIsReflexive(chain[0]);
    }
  }

  lemma {:induction false} BelowIsReflexive(b: Budget)
    ensures IsBelow(b, b)
  {
  }

  // All limits of a budget, and all names it has limits for.
  function LimitsIn(b: Budget): set<int> {
    (set path | path in b :: b[path].maxLines)
    + (set path, name | path in b && name in b[path].maxParams :: b[path].maxParams[name])
    + (set path, name | path in b && name in b[path].maxCallableLines :: b[path].maxCallableLines[name])
  }

  function AllNames(b: Budget): set<string> {
    set path, name | path in b && name in NamesIn(b[path]) :: name
  }

  lemma {:induction false} Bound(s: set<int>) returns (top: int)
    ensures forall x | x in s :: x <= top
    decreases s
  {
    top := 0;
    if s != {} {
      var x := Pick(s);
      var rest := Bound(s - {x});
      top := if rest < x then x else rest;
      assert forall y | y in s :: y == x || y in s - {x};
    }
  }

  lemma {:induction false} LimitIsListed(b: Budget, path: string, kind: Kind)
    ensures Limit(b, path, kind) in LimitsIn(b) || Limit(b, path, kind) == Limit(map[], path, kind)
    ensures !kind.OfModule? && kind.name !in AllNames(b) ==> Limit(b, path, kind) == Limit(map[], path, kind)
    ensures path !in b ==> Limit(b, path, kind) == Limit(map[], path, kind)
    ensures Limit(map[], path, kind) <= DEFAULT_MAX_LINES
  {
    if path in b { assert NamesIn(b[path]) <= AllNames(b); }
  }

  // The same limit for every name.
  function Even(names: set<string>, top: int): map<string, int> {
    map name | name in names :: top
  }

  // A base budget with ample limits everywhere but for one, which is below that of the current.
  function Undercut(current: Budget, q: string, kind: Kind, top: int): Budget {
    var names := AllNames(current) + (if kind.OfModule? then {} else {kind.name});
    var ample, low := Even(names, top), Limit(current, q, kind) - 1;
    var entry := match kind
                 case OfModule => Entry(low, ample, ample, None)
                 case OfParams(name) => Entry(top, ample[name := low], ample, None)
                 case OfCallable(name) => Entry(top, ample, ample[name := low], None);
    map path | path in current.Keys + MovedSources(current) + {q} ::
      if path == q then entry else Entry(top, ample, ample, None)
  }

  lemma {:induction false} UndercutLimits(current: Budget, q: string, kind: Kind, top: int, path: string, k: Kind)
    ensures path == q && k == kind ==>
              Limit(Undercut(current, q, kind, top), path, k) == Limit(current, q, kind) - 1
    ensures path in current.Keys + MovedSources(current) + {q} && (path != q || k != kind) ==>
              Limit(Undercut(current, q, kind, top), path, k)
              == if k.OfModule? || k.name in AllNames(current) || (!kind.OfModule? && k.name == kind.name) then top
                 else Limit(map[], path, k)
    ensures path !in current.Keys + MovedSources(current) + {q} ==>
              Limit(Undercut(current, q, kind, top), path, k) == Limit(map[], path, k)
  {
    hide AllNames, MovedSources;
    var base := Undercut(current, q, kind, top);
    assert base.Keys == current.Keys + MovedSources(current) + {q};
  }

  lemma {:induction false} UndercutPasses(current: Budget, q: string, kind: Kind, top: int)
    requires !IsKept(current, q, kind) && top >= DEFAULT_MAX_LINES && forall x | x in LimitsIn(current) :: x <= top
    ensures Passes(current, Undercut(current, q, kind, top)) && !IsBelow(current, Undercut(current, q, kind, top))
  {
    var base := Undercut(current, q, kind, top);
    forall path | !IsMovedAway(current, path) ensures IsBelowAt(current, path, base, BasePath(current, path)) {
      forall k: Kind ensures Limit(current, path, k) <= Limit(base, BasePath(current, path), k) {
        UndercutPassesAt(current, q, kind, top, path, k);
      }
    }
    NothingRaisedIffBelow(current, base);
    UndercutLimits(current, q, kind, top, q, kind);
    assert !IsBelowAt(current, q, base, q);
  }

  lemma {:induction false} UndercutPassesAt(current: Budget, q: string, kind: Kind, top: int, path: string, k: Kind)
    requires !IsKept(current, q, kind) && top >= DEFAULT_MAX_LINES && forall x | x in LimitsIn(current) :: x <= top
    requires !IsMovedAway(current, path)
    ensures Limit(current, path, k) <= Limit(Undercut(current, q, kind, top), BasePath(current, path), k)
  {
    var r := BasePath(current, path);
    UndercutLimits(current, q, kind, top, r, k);
    LimitIsListed(current, path, k);
    assert Limit(map[], r, k) == Limit(map[], path, k);
    assert AnswersFor(current, path, r);
    assert r == path || r in MovedSources(current);
    hide Limit, Undercut, LimitsIn, AllNames, MovedSources, BasePath, IsMovedAway;
  }

  // A commit that passes raises no limit of any path, whatever the base, exactly if for every path
  // some path that answers for it has a limit as high.
  lemma {:induction false} RatchetIsOrderExactly(current: Budget)
    ensures (forall base: Budget | Passes(current, base) :: IsBelow(current, base)) <==> KeepsOrder(current)
  {
    hide Passes, IsBelow, IsKept, Undercut;
    if KeepsOrder(current) {
      forall base: Budget | Passes(current, base) ensures IsBelow(current, base) { AllKeptMeansBelow(current, base); }
    } else {
      var q, kind :| !IsKept(current, q, kind);
      var top := Bound(LimitsIn(current) + {DEFAULT_MAX_LINES});
      assert DEFAULT_MAX_LINES in LimitsIn(current) + {DEFAULT_MAX_LINES};
      UndercutPasses(current, q, kind, top);
    }
  }

  // What reading a budget yields: names are not empty and limits positive.
  predicate IsReadable(b: Budget) {
    forall path | path in b :: |path| > 0 && IsReadableEntry(b[path])
  }

  predicate IsReadableEntry(e: Entry) {
    && e.maxLines > 0 && e.renamedFrom != Some("")
    && ArePositive(e.maxParams) && ArePositive(e.maxCallableLines)
  }

  predicate ArePositive(limits: map<string, int>) {
    forall name | name in limits :: |name| > 0 && limits[name] > 0
  }

  predicate IsNamed(kind: Kind) { kind.OfModule? || |kind.name| > 0 }

  // A limit of one cannot have risen: there is no lower one to read.
  ghost predicate KeepsReadOrder(current: Budget) {
    forall q, kind: Kind | IsNamed(kind) :: IsKept(current, q, kind) || Limit(current, q, kind) <= 1
  }

  lemma {:induction false} ReadableLimits(b: Budget, path: string, kind: Kind)
    requires IsReadable(b)
    ensures Limit(b, path, kind) > 0
    ensures !IsNamed(kind) ==> Limit(b, path, kind) == Limit(map[], path, kind)
    ensures |path| == 0 ==> BasePath(b, path) == path && !IsMovedAway(b, path)
  {
  }

  lemma {:induction false} UndercutIsReadable(current: Budget, q: string, kind: Kind, top: int)
    requires IsReadable(current) && |q| > 0 && IsNamed(kind) && top > 0 && Limit(current, q, kind) > 1
    ensures IsReadable(Undercut(current, q, kind, top))
  {
    var names := AllNames(current) + (if kind.OfModule? then {} else {kind.name});
    var base := Undercut(current, q, kind, top);
    forall path | path in base ensures |path| > 0 { SourcesAreNamed(current); }
    NamesAreNamed(current);
    hide AllNames, MovedSources, Limit;
    forall path | path in base ensures IsReadableEntry(base[path]) {
      assert ArePositive(Even(names, top));
    }
  }

  lemma {:induction false} SourcesAreNamed(b: Budget)
    requires IsReadable(b)
    ensures forall path | path in MovedSources(b) :: |path| > 0
  {
  }

  lemma {:induction false} NamesAreNamed(b: Budget)
    requires IsReadable(b)
    ensures forall name | name in AllNames(b) :: |name| > 0
  {
  }

  // The same among the budgets that can be read.
  lemma {:induction false} ReadRatchetIsOrderExactly(current: Budget)
    requires IsReadable(current)
    ensures (forall base: Budget | IsReadable(base) && Passes(current, base) :: IsBelow(current, base))
            <==> KeepsReadOrder(current)
  {
    if KeepsReadOrder(current) {
      forall base: Budget | IsReadable(base) && Passes(current, base) ensures IsBelow(current, base) {
        ReadKeptMeansBelow(current, base);
      }
    } else {
      hide Passes, IsBelow, IsKept, Undercut, IsReadable, Limit;
      var q, kind: Kind :| IsNamed(kind) && !IsKept(current, q, kind) && Limit(current, q, kind) > 1;
      ReadableLimits(current, q, kind);
      if |q| == 0 { UnmovedIsKept(current, q, kind); }
      var top := Bound(LimitsIn(current) + {DEFAULT_MAX_LINES});
      assert DEFAULT_MAX_LINES in LimitsIn(current) + {DEFAULT_MAX_LINES};
      UndercutPasses(current, q, kind, top);
      UndercutIsReadable(current, q, kind, top);
    }
  }

  lemma {:induction false} ReadKeptMeansBelow(current: Budget, base: Budget)
    requires KeepsReadOrder(current) && IsReadable(current) && IsReadable(base) && Passes(current, base)
    ensures IsBelow(current, base)
  {
    hide IsKept, Passes, Limit, IsReadable;
    forall q, kind: Kind ensures Limit(current, q, kind) <= Limit(base, q, kind) {
      ReadableLimits(base, q, kind);
      ReadableLimits(current, q, kind);
      if IsKept(current, q, kind) { KeptMeansBelow(current, base, q, kind); }
    }
  }

  // Renaming is a way round: the former name falls back to the defaults unchecked.
  lemma {:induction false} RenameCanRaise(from: string, to: string)
    requires from != to && from != ""
    ensures exists current: Budget, base: Budget ::
              Passes(current, base) && LinesLimit(current, from) > LinesLimit(base, from)
  {
    var base: Budget := map[from := Entry(1, map[], map[], None)];
    var current: Budget := map[to := Entry(1, map[], map[], Some(from))];
    assert from in MovedSources(current) by { assert to in current; }
    forall path | !IsMovedAway(current, path) ensures IsBelowAt(current, path, base, BasePath(current, path)) {
      if path != to { assert path != from; }
    }
    NothingRaisedIffBelow(current, base);
    assert LinesLimit(current, from) > LinesLimit(base, from);
  }

  // And so it is for the new name, if it had a limit of its own before.
  lemma {:induction false} RenameCanRaiseNewName(from: string, to: string)
    requires from != to && from != ""
    ensures exists current: Budget, base: Budget ::
              && Passes(current, base) && LinesLimit(current, to) > LinesLimit(base, to)
              && forall path | path != to :: IsBelowAt(current, path, base, path)
  {
    var base: Budget := map[from := Entry(900, map[], map[], None), to := Entry(700, map[], map[], None)];
    var current: Budget := map[to := Entry(900, map[], map[], Some(from))];
    assert from in MovedSources(current) by { assert to in current; }
    forall path | !IsMovedAway(current, path) ensures IsBelowAt(current, path, base, BasePath(current, path)) {
      if path != to { assert path != from; }
    }
    NothingRaisedIffBelow(current, base);
    assert LinesLimit(current, to) > LinesLimit(base, to);
    assert forall path | path != to :: IsBelowAt(current, path, base, path);
  }

  /******* The check against the measured modules *******/

  // The modules respect every effective limit.
  ghost predicate IsWithin(modules: seq<Module>, b: Budget) {
    forall m | m in modules :: IsModuleWithin(m, b)
  }

  ghost predicate IsModuleWithin(m: Module, b: Budget) {
    && m.lines <= LinesLimit(b, m.path)
    && forall c | c in m.callables :: IsCallableWithin(c, m.path, b)
  }

  predicate IsCallableWithin(c: Callable, path: string, b: Budget) {
    c.params <= ParamsLimit(b, path, c.name) && c.lines <= CallableLinesLimit(b, path, c.name)
  }

  // Under a budget that only fell, nothing is allowed that was not allowed before.
  lemma {:induction false} WithinCarriesOver(modules: seq<Module>, current: Budget, base: Budget)
    requires IsBelow(current, base) && IsWithin(modules, current)
    ensures IsWithin(modules, base)
  {
    forall m | m in modules ensures IsModuleWithin(m, base) {
      assert IsModuleWithin(m, current) && IsBelowAt(current, m.path, base, m.path);
      assert Limit(current, m.path, OfModule) <= Limit(base, m.path, OfModule);
      forall c | c in m.callables ensures IsCallableWithin(c, m.path, base) {
        assert IsCallableWithin(c, m.path, current);
        assert Limit(current, m.path, OfParams(c.name)) <= Limit(base, m.path, OfParams(c.name));
        assert Limit(current, m.path, OfCallable(c.name)) <= Limit(base, m.path, OfCallable(c.name));
      }
    }
  }

  // Every name in the budget is the name of something measured; of modules with one path the
  // last counts.
  ghost predicate IsMeasured(modules: seq<Module>, b: Budget) {
    forall path | path in b :: IsPathMeasured(modules, b, path)
  }

  function NamesIn(e: Entry): set<string> {
    e.maxParams.Keys + e.maxCallableLines.Keys
  }

  function CallableNames(callables: seq<Callable>): set<string> {
    set c | c in callables :: c.name
  }

  function LastAt(modules: seq<Module>, path: string): Option<Module> {
    if modules == [] then None
    else
      var last := modules[|modules| - 1];
      if last.path == path then Some(last) else LastAt(modules[..|modules| - 1], path)
  }

  // The last module with the path, if there is one.
  lemma {:induction false} LastAtIsLast(modules: seq<Module>, path: string)
    ensures match LastAt(modules, path)
            case Some(m) => exists i :: IsLastAt(modules, path, i) && modules[i] == m
            case None => forall m | m in modules :: m.path != path
  {
    if modules != [] {
      var last := |modules| - 1;
      LastAtIsLast(modules[..last], path);
      if modules[last].path == path {
        assert IsLastAt(modules, path, last);
      } else if i :| IsLastAt(modules[..last], path, i) && LastAt(modules[..last], path) == Some(modules[..last][i]) {
        assert IsLastAt(modules, path, i);
      }
    }
  }

  ghost predicate IsLastAt(modules: seq<Module>, path: string, i: int) {
    0 <= i < |modules| && modules[i].path == path && forall j | i < j < |modules| :: modules[j].path != path
  }

  ghost predicate IsPathMeasured(modules: seq<Module>, b: Budget, path: string)
    requires path in b
  {
    var m := LastAt(modules, path);
    m.Some? && NamesIn(b[path]) <= CallableNames(m.value.callables)
  }

  datatype Violation =
    | NoSuchPath(path: string)
    | NoSuchCallable(path: string, name: string)
    | TooManyLines(path: string, lines: int, limit: int)
    | TooManyParams(path: string, name: string, params: int, limit: int)
    | TooManyCallableLines(path: string, name: string, lines: int, limit: int)

  ghost predicate IsUnknown(modules: seq<Module>, b: Budget, path: string, v: Violation)
    requires path in b
  {
    var m := LastAt(modules, path);
    if m.None? then v == NoSuchPath(path)
    else v.NoSuchCallable? && v.path == path && v.name in NamesIn(b[path]) - CallableNames(m.value.callables)
  }

  ghost predicate IsOversized(c: Callable, path: string, b: Budget, v: Violation) {
    || (v == TooManyParams(path, c.name, c.params, ParamsLimit(b, path, c.name)) && v.params > v.limit)
    || (v == TooManyCallableLines(path, c.name, c.lines, CallableLinesLimit(b, path, c.name)) && v.lines > v.limit)
  }

  ghost predicate IsOversizedIn(m: Module, n: nat, b: Budget, v: Violation)
    requires n <= |m.callables|
  {
    exists k :: 0 <= k < n && IsOversized(m.callables[k], m.path, b, v)
  }

  ghost predicate IsModuleViolation(m: Module, b: Budget, v: Violation) {
    || (v == TooManyLines(m.path, m.lines, LinesLimit(b, m.path)) && v.lines > v.limit)
    || IsOversizedIn(m, |m.callables|, b, v)
  }

  // A name that is not measured, or a limit that one of the first n modules breaks.
  ghost predicate IsViolation(modules: seq<Module>, n: nat, b: Budget, paths: set<string>, v: Violation)
    requires n <= |modules| && paths <= b.Keys
  {
    (exists path :: path in paths && IsUnknown(modules, b, path, v))
    || exists k :: 0 <= k < n && IsModuleViolation(modules[k], b, v)
  }

  method UnknownNames(modules: seq<Module>, b: Budget, path: string) returns (violations: seq<Violation>)
    requires path in b
    ensures forall v: Violation :: v in violations <==> IsUnknown(modules, b, path, v)
  {
    var m := LastAt(modules, path);
    if m.None? { return [NoSuchPath(path)]; }
    var known := CallableNames(m.value.callables);
    violations := [];
    var pending := NamesIn(b[path]);
    while pending != {}
      invariant pending <= NamesIn(b[path])
      invariant forall v: Violation ::
                  v in violations <==>
                      v.NoSuchCallable? && v.path == path && v.name in NamesIn(b[path]) - pending - known
    {
      ghost var some := Pick(pending);
      assert some in pending;
      var name :| name in pending;
      if name !in known { violations := violations + [NoSuchCallable(path, name)]; }
      pending := pending - {name};
    }
  }

  method OversizedCallables(m: Module, b: Budget) returns (violations: seq<Violation>)
    ensures forall v: Violation :: v in violations <==> IsOversizedIn(m, |m.callables|, b, v)
  {
    violations := [];
    for i := 0 to |m.callables|
      invariant forall v: Violation :: v in violations <==> IsOversizedIn(m, i, b, v)
    {
      ghost var before := violations;
      var c := m.callables[i];
      var maxParams, maxLines := ParamsLimit(b, m.path, c.name), CallableLinesLimit(b, m.path, c.name);
      if c.params > maxParams { violations := violations + [TooManyParams(m.path, c.name, c.params, maxParams)]; }
      if c.lines > maxLines { violations := violations + [TooManyCallableLines(m.path, c.name, c.lines, maxLines)]; }
      forall v: Violation ensures v in violations <==> IsOversizedIn(m, i + 1, b, v) {
        assert v in violations <==> v in before || IsOversized(c, m.path, b, v);
      }
    }
  }

  // Exactly what is not measured or not kept is reported.
  method CheckCurrentBudget(modules: seq<Module>, b: Budget) returns (violations: seq<Violation>)
    ensures forall v: Violation :: v in violations <==> IsViolation(modules, |modules|, b, b.Keys, v)
    ensures violations == [] <==> IsMeasured(modules, b) && IsWithin(modules, b)
  {
    violations := [];
    var pending := b.Keys;
    while pending != {}
      invariant pending <= b.Keys
      invariant forall v: Violation :: v in violations <==> IsViolation(modules, 0, b, b.Keys - pending, v)
    {
      ghost var some := Pick(pending);
      assert some in pending;
      var path :| path in pending;
      var more := UnknownNames(modules, b, path);
      violations := violations + more;
      pending := pending - {path};
    }
    for i := 0 to |modules|
      invariant forall v: Violation :: v in violations <==> IsViolation(modules, i, b, b.Keys, v)
    {
      ghost var before := violations;
      var m := modules[i];
      var maxLines := LinesLimit(b, m.path);
      if m.lines > maxLines { violations := violations + [TooManyLines(m.path, m.lines, maxLines)]; }
      var more := OversizedCallables(m, b);
      violations := violations + more;
      forall v: Violation ensures v in violations <==> IsViolation(modules, i + 1, b, b.Keys, v) {
        assert v in violations <==> v in before || IsModuleViolation(m, b, v);
      }
    }
    CleanIffKept(modules, b);
    if violations != [] { assert violations[0] in violations; }
  }

  lemma {:induction false} CleanIffKept(modules: seq<Module>, b: Budget)
    ensures (forall v: Violation :: !IsViolation(modules, |modules|, b, b.Keys, v))
            <==> IsMeasured(modules, b) && IsWithin(modules, b)
  {
    if forall v: Violation :: !IsViolation(modules, |modules|, b, b.Keys, v) {
      forall path | path in b ensures IsPathMeasured(modules, b, path) { CleanPath(modules, b, path); }
      forall m | m in modules ensures IsModuleWithin(m, b) { CleanModule(modules, b, m); }
    }
    if IsMeasured(modules, b) && IsWithin(modules, b) {
      forall v: Violation ensures !IsViolation(modules, |modules|, b, b.Keys, v) {
        forall path | path in b.Keys ensures !IsUnknown(modules, b, path, v) {
          assert IsPathMeasured(modules, b, path);
        }
        forall k | 0 <= k < |modules| ensures !IsModuleViolation(modules[k], b, v) {
          assert modules[k] in modules && IsModuleWithin(modules[k], b);
          forall j | 0 <= j < |modules[k].callables| ensures !IsOversized(modules[k].callables[j], modules[k].path,
              b, v) {
            assert modules[k].callables[j] in modules[k].callables;
            assert IsCallableWithin(modules[k].callables[j], modules[k].path, b);
          }
        }
      }
    }
  }

  lemma {:induction false} CleanPath(modules: seq<Module>, b: Budget, path: string)
    requires path in b && forall v: Violation :: !IsViolation(modules, |modules|, b, b.Keys, v)
    ensures IsPathMeasured(modules, b, path)
  {
    assert !IsViolation(modules, |modules|, b, b.Keys, NoSuchPath(path));
    assert !IsUnknown(modules, b, path, NoSuchPath(path));
    var m := LastAt(modules, path).value;
    forall name | name in NamesIn(b[path]) ensures name in CallableNames(m.callables) {
      assert !IsViolation(modules, |modules|, b, b.Keys, NoSuchCallable(path, name));
      assert !IsUnknown(modules, b, path, NoSuchCallable(path, name));
    }
  }

  lemma {:induction false} CleanModule(modules: seq<Module>, b: Budget, m: Module)
    requires m in modules && forall v: Violation :: !IsViolation(modules, |modules|, b, b.Keys, v)
    ensures IsModuleWithin(m, b)
  {
    var k :| 0 <= k < |modules| && modules[k] == m;
    var tooLong := TooManyLines(m.path, m.lines, LinesLimit(b, m.path));
    assert !IsViolation(modules, |modules|, b, b.Keys, tooLong) && !IsModuleViolation(modules[k], b, tooLong);
    forall c | c in m.callables ensures IsCallableWithin(c, m.path, b) {
      var j :| 0 <= j < |m.callables| && m.callables[j] == c;
      NotOversized(modules, b, k, j, TooManyParams(m.path, c.name, c.params, ParamsLimit(b, m.path, c.name)));
      NotOversized(modules, b, k, j,
                   TooManyCallableLines(m.path, c.name, c.lines, CallableLinesLimit(b, m.path, c.name)));
    }
  }

  lemma {:induction false} NotOversized(modules: seq<Module>, b: Budget, k: nat, j: nat, v: Violation)
    requires k < |modules| && j < |modules[k].callables| && !IsViolation(modules, |modules|, b, b.Keys, v)
    ensures !IsOversized(modules[k].callables[j], modules[k].path, b, v)
  {
    assert !IsModuleViolation(modules[k], b, v);
  }

  /******* Reading a budget *******/

  // Absent stands for null as well.
  datatype Raw = Absent | Flag(b: bool) | Number(n: int) | Text(s: string) | Object(fields: map<string, Raw>) | Other

  datatype RawEntry = RawEntry(path: Raw, maxLines: Raw, maxParams: Raw, maxCallableLines: Raw, renamedFrom: Raw)

  predicate IsPositive(raw: Raw) { raw.Number? && raw.n > 0 }

  predicate IsName(raw: Raw) { raw.Text? && |raw.s| > 0 }

  predicate IsMapping(raw: Raw) {
    raw.Absent? || (raw.Object? && forall name | name in raw.fields :: |name| > 0 && IsPositive(raw.fields[name]))
  }

  function MappingOf(raw: Raw): map<string, int>
    requires IsMapping(raw)
  {
    if raw.Absent? then map[] else map name | name in raw.fields :: raw.fields[name].n
  }

  predicate IsEntry(raw: RawEntry) {
    && IsName(raw.path) && IsPositive(raw.maxLines) && IsMapping(raw.maxParams) && IsMapping(raw.maxCallableLines)
    && (raw.renamedFrom.Absent? || IsName(raw.renamedFrom))
  }

  function EntryOf(raw: RawEntry): Entry
    requires IsEntry(raw)
  {
    Entry(raw.maxLines.n, MappingOf(raw.maxParams), MappingOf(raw.maxCallableLines),
          if raw.renamedFrom.Absent? then None else Some(raw.renamedFrom.s))
  }

  // Entries are read one by one; a malformed one, or a second one for a path, is an error.
  function ParseAll(raws: seq<RawEntry>): Option<Budget> {
    if raws == [] then Some(map[])
    else
      var last := raws[|raws| - 1];
      var before := ParseAll(raws[..|raws| - 1]);
      if before.None? || !IsEntry(last) || last.path.s in before.value then None
      else Some(before.value[last.path.s := EntryOf(last)])
  }

  // Every element of the list is a well-formed entry.
  ghost predicate AreEntries(raws: seq<Option<RawEntry>>) {
    forall i | 0 <= i < |raws| :: raws[i].Some? && IsEntry(raws[i].value)
  }

  ghost predicate HaveDistinctPaths(raws: seq<Option<RawEntry>>)
    requires AreEntries(raws)
  {
    forall i, j | 0 <= i < j < |raws| :: raws[i].value.path.s != raws[j].value.path.s
  }

  // The budget holds each element under its own path, and nothing else.
  ghost predicate IsReadFrom(raws: seq<Option<RawEntry>>, b: Budget)
    requires AreEntries(raws)
  {
    && (forall i | 0 <= i < |raws| :: raws[i].value.path.s in b && b[raws[i].value.path.s] == EntryOf(raws[i].value))
    && forall path | path in b :: exists i :: 0 <= i < |raws| && raws[i].value.path.s == path
  }

  // Reading one by one reads everything exactly if all entries are well formed and no path repeats.
  lemma {:induction false} ParseReads(raws: seq<Option<RawEntry>>)
    ensures AreObjects(raws) && ParseAll(Values(raws)).Some?
            <==> AreEntries(raws) && HaveDistinctPaths(raws)
    ensures AreEntries(raws) && HaveDistinctPaths(raws) ==> IsReadFrom(raws, ParseAll(Values(raws)).value)
  {
    if raws != [] {
      var last := |raws| - 1;
      ParseReads(raws[..last]);
      NextValue(raws, last);
      assert raws[..last + 1] == raws;
      if raws[last].Some? { ParseReadsOne(raws[..last], raws[last].value); }
      assert raws == raws[..last] + [raws[last]];
    }
  }

  // Every budget that is read is readable, and every readable one is what some list reads as.
  lemma {:induction false} ReadIsReadable(raws: seq<Option<RawEntry>>, b: Budget)
    requires AreEntries(raws) && IsReadFrom(raws, b)
    ensures IsReadable(b)
  {
    forall path | path in b
      ensures |path| > 0 && IsReadableEntry(b[path])
    {
      var i :| 0 <= i < |raws| && raws[i].value.path.s == path;
    }
  }

  function RawLimits(limits: map<string, int>): Raw {
    Object(map name | name in limits :: Number(limits[name]))
  }

  function RawOf(path: string, e: Entry): RawEntry {
    RawEntry(Text(path), Number(e.maxLines), RawLimits(e.maxParams), RawLimits(e.maxCallableLines),
             if e.renamedFrom.None? then Absent else Text(e.renamedFrom.value))
  }

  lemma {:induction false} ReadableIsRead(b: Budget) returns (raws: seq<Option<RawEntry>>)
    requires IsReadable(b)
    ensures AreEntries(raws) && HaveDistinctPaths(raws) && IsReadFrom(raws, b)
    decreases b.Keys
  {
    raws := [];
    hide IsReadableEntry;
    if b.Keys != {} {
      var path := Pick(b.Keys);
      var rest := b - {path};
      hide IsReadableEntry, IsEntry, EntryOf, AreEntries, HaveDistinctPaths, IsReadFrom;
      assert IsReadable(rest);
      var before := ReadableIsRead(rest);
      RawReadsBack(path, b[path]);
      AppendReads(before, rest, RawOf(path, b[path]));
      raws := before + [Some(RawOf(path, b[path]))];
      assert rest[path := b[path]] == b;
    } else {
      assert b == map[];
    }
  }

  lemma {:induction false} AppendReads(raws: seq<Option<RawEntry>>, b: Budget, e: RawEntry)
    requires AreEntries(raws) && HaveDistinctPaths(raws) && IsReadFrom(raws, b) && IsEntry(e) && e.path.s !in b
    ensures var more := raws + [Some(e)];
            AreEntries(more) && HaveDistinctPaths(more) && IsReadFrom(more, b[e.path.s := EntryOf(e)])
  {
    hide EntryOf, IsMapping;
    var more, after := raws + [Some(e)], b[e.path.s := EntryOf(e)];
    assert more[|raws|] == Some(e) && forall i | 0 <= i < |raws| :: more[i] == raws[i];
    forall path | path in after ensures exists i :: 0 <= i < |more| && more[i].value.path.s == path {
      if path != e.path.s {
        var i :| 0 <= i < |raws| && raws[i].value.path.s == path;
        assert more[i] == raws[i];
      }
    }
  }

  lemma {:induction false} RawReadsBack(path: string, e: Entry)
    requires |path| > 0 && IsReadableEntry(e)
    ensures IsEntry(RawOf(path, e)) && EntryOf(RawOf(path, e)) == e && RawOf(path, e).path.s == path
  {
    assert MappingOf(RawLimits(e.maxParams)) == e.maxParams;
    assert MappingOf(RawLimits(e.maxCallableLines)) == e.maxCallableLines;
  }

  lemma {:induction false} ParseReadsOne(raws: seq<Option<RawEntry>>, e: RawEntry)
    requires AreEntries(raws) && HaveDistinctPaths(raws) ==>
               ParseAll(Values(raws)).Some? && IsReadFrom(raws, ParseAll(Values(raws)).value)
    requires AreObjects(raws) && ParseAll(Values(raws)).Some? ==>
               AreEntries(raws) && HaveDistinctPaths(raws)
    ensures var more := raws + [Some(e)];
            && (AreObjects(more) && ParseAll(Values(raws) + [e]).Some?
                <==> AreEntries(more) && HaveDistinctPaths(more))
            && (AreEntries(more) && HaveDistinctPaths(more) ==> IsReadFrom(more, ParseAll(Values(raws) + [e]).value))
  {
    hide ParseAll, Values, IsMapping, IsPositive;
    var more := raws + [Some(e)];
    AppendParsed(Values(raws), e);
    if AreObjects(more) && ParseAll(Values(raws) + [e]).Some? {
      assert forall i | 0 <= i < |raws| :: raws[i] == more[i];
      assert AreEntries(raws) && HaveDistinctPaths(raws);
    }
    if AreEntries(more) && HaveDistinctPaths(more) {
      assert forall i | 0 <= i < |raws| :: raws[i] == more[i];
      assert more[|raws|] == Some(e);
      assert AreEntries(raws) && HaveDistinctPaths(raws);
      var b := ParseAll(Values(raws)).value;
      assert forall i | 0 <= i < |raws| :: raws[i].value.path.s != e.path.s;
      assert e.path.s !in b;
    }
  }

  datatype Failure = NotAnArray | NotAnObject | BadPath | DuplicatePath | BadLimit | BadName

  // One entry more, unless it is malformed or its path has been read before.
  method ReadEntry(e: RawEntry, entries: Budget) returns (r: Result<Budget, Failure>)
    ensures r.Ok? <==> IsEntry(e) && e.path.s !in entries
    ensures r.Ok? ==> r.value == entries[e.path.s := EntryOf(e)]
  {
    if !IsName(e.path) { return Err(BadPath); }
    if e.path.s in entries { return Err(DuplicatePath); }
    if !IsPositive(e.maxLines) || !IsMapping(e.maxParams) || !IsMapping(e.maxCallableLines) { return Err(BadLimit); }
    if !e.renamedFrom.Absent? && !IsName(e.renamedFrom) { return Err(BadName); }
    return Ok(entries[e.path.s := EntryOf(e)]);
  }

  // None for the list, or for an entry, is a value of another kind.
  method ParseBudget(raw: Option<seq<Option<RawEntry>>>) returns (r: Result<Budget, Failure>)
    ensures r.Ok? <==> raw.Some? && AreEntries(raw.value) && HaveDistinctPaths(raw.value)
    ensures r.Ok? ==> IsReadFrom(raw.value, r.value)
  {
    if raw.None? { return Err(NotAnArray); }
    ParseReads(raw.value);
    r := ParseEntries(raw.value);
  }

  predicate AreObjects(raws: seq<Option<RawEntry>>) {
    forall i | 0 <= i < |raws| :: raws[i].Some?
  }

  method ParseEntries(raws: seq<Option<RawEntry>>) returns (r: Result<Budget, Failure>)
    ensures r.Ok? <==> AreObjects(raws) && ParseAll(Values(raws)).Some?
    ensures r.Ok? ==> r.value == ParseAll(Values(raws)).value
  {
    hide ParseAll, Values, IsEntry;
    var entries: Budget := map[];
    NothingParsed(raws);
    for i := 0 to |raws|
      invariant AreObjects(raws[..i]) && ParseAll(Values(raws[..i])) == Some(entries)
    {
      if raws[i].None? { return Err(NotAnObject); }
      var read := ReadEntry(raws[i].value, entries);
      ParseNext(raws, i, entries);
      if read.Err? {
        ParseFails(raws, i + 1);
        return Err(read.error);
      }
      entries := read.value;
    }
    assert raws[..|raws|] == raws;
    return Ok(entries);
  }

  function Values(raws: seq<Option<RawEntry>>): seq<RawEntry> {
    if raws == [] then []
    else Values(raws[..|raws| - 1]) + if raws[|raws| - 1].Some? then [raws[|raws| - 1].value] else []
  }

  lemma {:induction false} NextValue(raws: seq<Option<RawEntry>>, i: nat)
    requires i < |raws|
    ensures raws[i].None? ==> Values(raws[..i + 1]) == Values(raws[..i])
    ensures raws[i].Some? ==> Values(raws[..i + 1]) == Values(raws[..i]) + [raws[i].value]
  {
    assert raws[..i + 1][..i] == raws[..i];
    assert Values(raws[..i]) + [] == Values(raws[..i]);
  }

  lemma {:induction false} NothingParsed(raws: seq<Option<RawEntry>>)
    ensures ParseAll(Values(raws[..0])) == Some(map[])
  {
    assert raws[..0] == [];
  }

  lemma {:induction false} ParseNext(raws: seq<Option<RawEntry>>, i: nat, entries: Budget)
    requires i < |raws| && raws[i].Some? && ParseAll(Values(raws[..i])) == Some(entries)
    ensures var e := raws[i].value;
            ParseAll(Values(raws[..i + 1]))
            == if !IsEntry(e) || e.path.s in entries then None else Some(entries[e.path.s := EntryOf(e)])
  {
    NextValue(raws, i);
    AppendParsed(Values(raws[..i]), raws[i].value);
  }

  lemma {:induction false} AppendParsed(raws: seq<RawEntry>, e: RawEntry)
    ensures ParseAll(raws + [e])
            == if ParseAll(raws).None? || !IsEntry(e) || e.path.s in ParseAll(raws).value then None
               else Some(ParseAll(raws).value[e.path.s := EntryOf(e)])
  {
    assert (raws + [e])[..|raws|] == raws;
  }

  // What cannot be read at some entry cannot be read with more entries.
  lemma {:induction false} ParseFails(raws: seq<Option<RawEntry>>, i: nat)
    requires i <= |raws| && ParseAll(Values(raws[..i])).None?
    ensures ParseAll(Values(raws)).None?
    decreases |raws| - i
  {
    if i == |raws| {
      assert raws[..i] == raws;
    } else {
      NextValue(raws, i);
      if raws[i].Some? { AppendParsed(Values(raws[..i]), raws[i].value); }
      ParseFails(raws, i + 1);
    }
  }

  /******* The first budget *******/

  // One percent, rounded up, but at least 5 and at most 10.
  function Headroom(value: int): (r: int)
    ensures 5 <= r <= 10 && (r == 5 || 100 * (r - 1) < value) && (r == 10 || value <= 100 * r)
  {
    var percent := (value + 99) / 100;
    var atLeast := if percent < 5 then 5 else percent;
    if atLeast > 10 then 10 else atLeast
  }

  // The callables over a limit; of callables with one name the last one counts.
  function Exceptional(callables: seq<Callable>, size: Callable -> int, limit: int): map<string, Raw> {
    if callables == [] then map[]
    else
      var last := callables[|callables| - 1];
      var before := Exceptional(callables[..|callables| - 1], size, limit);
      if size(last) > limit then before[last.name := Number(size(last) + Headroom(size(last)))] else before
  }

  function ParamsOf(c: Callable): int { c.params }

  function LinesOf(c: Callable): int { c.lines }

  function ExceptionalParams(callables: seq<Callable>): map<string, Raw> {
    Exceptional(callables, ParamsOf, DEFAULT_MAX_PARAMS)
  }

  function ExceptionalLines(callables: seq<Callable>): map<string, Raw> {
    Exceptional(callables, LinesOf, DEFAULT_MAX_CALLABLE_LINES)
  }

  predicate IsExceptional(m: Module) {
    m.lines > DEFAULT_MAX_LINES || ExceptionalParams(m.callables) != map[] || ExceptionalLines(m.callables) != map[]
  }

  function ObjectOrAbsent(fields: map<string, Raw>): Raw {
    if fields == map[] then Absent else Object(fields)
  }

  function FirstEntry(m: Module): RawEntry {
    RawEntry(Text(m.path), Number(m.lines + Headroom(m.lines)), ObjectOrAbsent(ExceptionalParams(m.callables)),
             ObjectOrAbsent(ExceptionalLines(m.callables)), Absent)
  }

  function InitialBudget(modules: seq<Module>): seq<RawEntry> {
    if modules == [] then []
    else
      var last := modules[|modules| - 1];
      InitialBudget(modules[..|modules| - 1]) + if IsExceptional(last) then [FirstEntry(last)] else []
  }

  predicate IsProperModule(m: Module) {
    |m.path| > 0 && m.lines >= 0 && forall c | c in m.callables :: |c.name| > 0
  }

  predicate AreProper(modules: seq<Module>) {
    && (forall m | m in modules :: IsProperModule(m))
    && forall i, j | 0 <= i < j < |modules| :: modules[i].path != modules[j].path
  }

  // The last callable of its name that is over the limit.
  ghost predicate IsLastOver(callables: seq<Callable>, size: Callable -> int, limit: int, j: nat) {
    && j < |callables| && size(callables[j]) > limit
    && forall k | j < k < |callables| && callables[k].name == callables[j].name :: size(callables[k]) <= limit
  }

  // No callable exceeds the last one of its name over the limit by more than the headroom.
  ghost predicate IsCovered(callables: seq<Callable>, size: Callable -> int, limit: int) {
    forall i: nat, j: nat | && i < |callables| && IsLastOver(callables, size, limit, j)
                            && callables[i].name == callables[j].name ::
      size(callables[i]) <= size(callables[j]) + Headroom(size(callables[j]))
  }

  lemma {:induction false} ExceptionalIsWellFormed(callables: seq<Callable>, size: Callable -> int, limit: nat)
    requires forall c | c in callables :: |c.name| > 0
    ensures var e := Exceptional(callables, size, limit);
            && (forall name | name in e :: |name| > 0 && IsPositive(e[name]))
            && e.Keys <= CallableNames(callables)
  {
    if callables != [] {
      var last := callables[|callables| - 1];
      ExceptionalIsWellFormed(callables[..|callables| - 1], size, limit);
      assert callables == callables[..|callables| - 1] + [last];
    }
  }

  // An exceptional name is the name of a callable over the limit, and holds the last one's size.
  lemma {:induction false} ExceptionalIsLast(callables: seq<Callable>, size: Callable -> int, limit: int, name: string)
    ensures var e := Exceptional(callables, size, limit);
            if name in e
            then exists j: nat :: && IsLastOver(callables, size, limit, j) && callables[j].name == name
                                  && e[name] == Number(size(callables[j]) + Headroom(size(callables[j])))
            else forall i | 0 <= i < |callables| && callables[i].name == name :: size(callables[i]) <= limit
  {
    if callables != [] {
      var last := |callables| - 1;
      var before, e := Exceptional(callables[..last], size, limit), Exceptional(callables, size, limit);
      ExceptionalIsLast(callables[..last], size, limit, name);
      if callables[last].name == name && size(callables[last]) > limit {
        assert IsLastOver(callables, size, limit, last);
      } else if name in before {
        var j: nat :| && IsLastOver(callables[..last], size, limit, j) && callables[..last][j].name == name
                      && before[name] == Number(size(callables[..last][j]) + Headroom(size(callables[..last][j])));
        forall k | j < k < |callables| && callables[k].name == callables[j].name ensures size(callables[k]) <= limit {
          if k < last { assert callables[..last][k] == callables[k]; }
        }
        assert callables[..last][j] == callables[j];
        assert IsLastOver(callables, size, limit, j);
      } else {
        forall i | 0 <= i < |callables| && callables[i].name == name ensures size(callables[i]) <= limit {
          if i < last { assert callables[..last][i] == callables[i]; }
        }
      }
    }
  }

  lemma {:induction false} LastOverIsUnique(callables: seq<Callable>, size: Callable -> int, limit: int, i: nat, j: nat)
    requires IsLastOver(callables, size, limit, i) && IsLastOver(callables, size, limit, j)
    requires callables[i].name == callables[j].name
    ensures i == j
  {
  }

  function LimitIn(e: map<string, Raw>, name: string, limit: int): int {
    if name in e && e[name].Number? then e[name].n else limit
  }

  // The exceptional limits are kept exactly by covered callables.
  lemma {:induction false} KeptIffCovered(callables: seq<Callable>, size: Callable -> int, limit: int)
    ensures (forall c | c in callables :: size(c) <= LimitIn(Exceptional(callables, size, limit), c.name, limit))
            <==> IsCovered(callables, size, limit)
  {
    var e := Exceptional(callables, size, limit);
    if forall c | c in callables :: size(c) <= LimitIn(e, c.name, limit) {
      forall i: nat, j: nat | && i < |callables| && IsLastOver(callables, size, limit, j)
                              && callables[i].name == callables[j].name
        ensures size(callables[i]) <= size(callables[j]) + Headroom(size(callables[j]))
      {
        LimitOfName(callables, size, limit, i, j);
        assert callables[i] in callables;
      }
    }
    if IsCovered(callables, size, limit) {
      forall c | c in callables ensures size(c) <= LimitIn(e, c.name, limit) {
        var i :| 0 <= i < |callables| && callables[i] == c;
        ExceptionalIsLast(callables, size, limit, c.name);
        if c.name in e {
          var j: nat :| && IsLastOver(callables, size, limit, j) && callables[j].name == c.name
                        && e[c.name] == Number(size(callables[j]) + Headroom(size(callables[j])));
        }
      }
    }
  }

  lemma {:induction false} LimitOfName(callables: seq<Callable>, size: Callable -> int, limit: int, i: nat, j: nat)
    requires i < |callables| && IsLastOver(callables, size, limit, j) && callables[i].name == callables[j].name
    ensures LimitIn(Exceptional(callables, size, limit), callables[i].name, limit)
            == size(callables[j]) + Headroom(size(callables[j]))
  {
    var e, name := Exceptional(callables, size, limit), callables[j].name;
    ExceptionalIsLast(callables, size, limit, name);
    assert name in e;
    var k: nat :| && IsLastOver(callables, size, limit, k) && callables[k].name == name
                  && e[name] == Number(size(callables[k]) + Headroom(size(callables[k])));
    LastOverIsUnique(callables, size, limit, j, k);
  }

  // Callables of different names are always covered.
  lemma {:induction false} DistinctNamesAreCovered(callables: seq<Callable>, size: Callable -> int, limit: int)
    requires forall i, j | 0 <= i < j < |callables| :: callables[i].name != callables[j].name
    ensures IsCovered(callables, size, limit)
  {
    forall i: nat, j: nat | && i < |callables| && IsLastOver(callables, size, limit, j)
                            && callables[i].name == callables[j].name
      ensures i == j
    {
    }
  }

  ghost predicate IsModuleCovered(m: Module) {
    && IsCovered(m.callables, ParamsOf, DEFAULT_MAX_PARAMS)
    && IsCovered(m.callables, LinesOf, DEFAULT_MAX_CALLABLE_LINES)
  }

  // What the budget of the first n modules holds.
  ghost predicate IsInitial(modules: seq<Module>, n: nat, b: Budget)
    requires n <= |modules|
  {
    && (forall path | path in b :: exists i :: 0 <= i < n && modules[i].path == path && IsExceptional(modules[i]))
    && forall i | 0 <= i < n :: EntryFits(modules[i], b)
  }

  ghost predicate EntryFits(m: Module, b: Budget) {
    if IsExceptional(m)
    then m.path in b && IsEntry(FirstEntry(m)) && b[m.path] == EntryOf(FirstEntry(m))
    else m.path !in b
  }

  lemma {:induction false} FirstEntryParses(m: Module)
    requires IsProperModule(m)
    ensures IsEntry(FirstEntry(m)) && FirstEntry(m).path == Text(m.path)
  {
    ExceptionalIsWellFormed(m.callables, ParamsOf, DEFAULT_MAX_PARAMS);
    ExceptionalIsWellFormed(m.callables, LinesOf, DEFAULT_MAX_CALLABLE_LINES);
  }

  lemma {:induction false} InitialNext(modules: seq<Module>, m: Module)
    ensures InitialBudget(modules + [m]) == if IsExceptional(m) then InitialBudget(modules) + [FirstEntry(m)]
                                            else InitialBudget(modules)
  {
    hide IsExceptional, FirstEntry;
    assert (modules + [m])[..|modules|] == modules;
    assert InitialBudget(modules) + [] == InitialBudget(modules);
  }

  lemma {:induction false} InitialGrows(modules: seq<Module>, n: nat, b: Budget)
    requires AreProper(modules) && n < |modules| && IsInitial(modules, n, b) && IsEntry(FirstEntry(modules[n]))
    ensures modules[n].path !in b
    ensures IsInitial(modules, n + 1, if IsExceptional(modules[n])
                                      then b[modules[n].path := EntryOf(FirstEntry(modules[n]))] else b)
  {
    hide IsEntry, IsExceptional, FirstEntry, EntryOf;
    var next := if IsExceptional(modules[n]) then b[modules[n].path := EntryOf(FirstEntry(modules[n]))] else b;
    forall i | 0 <= i < n + 1 ensures EntryFits(modules[i], next) {
      if i < n { assert EntryFits(modules[i], b); }
    }
  }

  lemma {:induction false} InitialParses(modules: seq<Module>, n: nat)
    requires AreProper(modules) && n <= |modules|
    ensures var b := ParseAll(InitialBudget(modules[..n])); b.Some? && IsInitial(modules, n, b.value)
    decreases n, 0
  {
    if n == 0 {
      assert modules[..0] == [];
    } else {
      InitialParsesNext(modules, n - 1);
    }
  }

  lemma {:induction false} InitialParsesNext(modules: seq<Module>, n: nat)
    requires AreProper(modules) && n < |modules|
    ensures var b := ParseAll(InitialBudget(modules[..n + 1])); b.Some? && IsInitial(modules, n + 1, b.value)
    decreases n, 1
  {
    hide IsEntry, IsExceptional, FirstEntry, EntryOf, ParseAll, InitialBudget, IsInitial, IsProperModule;
    InitialParses(modules, n);
    var m, before := modules[n], InitialBudget(modules[..n]);
    assert m in modules;
    assert modules[..n + 1] == modules[..n] + [m];
    InitialNext(modules[..n], m);
    FirstEntryParses(m);
    AppendParsed(before, FirstEntry(m));
    InitialGrows(modules, n, ParseAll(before).value);
  }

  // The budget written for the modules as they are can be read back, and passes their check
  // exactly if in each module every callable is covered by the last one of its name.
  lemma {:induction false} InitialBudgetPasses(modules: seq<Module>)
    requires AreProper(modules)
    ensures var b := ParseAll(InitialBudget(modules));
            && b.Some? && IsMeasured(modules, b.value) && IsRenameFree(b.value)
            && (IsWithin(modules, b.value) <==> forall m | m in modules :: IsModuleCovered(m))
  {
    assert modules[..|modules|] == modules;
    InitialParses(modules, |modules|);
    var b := ParseAll(InitialBudget(modules)).value;
    forall path | path in b ensures IsPathMeasured(modules, b, path) && b[path].renamedFrom.None? {
      var i :| 0 <= i < |modules| && modules[i].path == path && IsExceptional(modules[i]);
      assert EntryFits(modules[i], b);
      LastIsOnly(modules, i);
      EntryIsMeasured(modules[i]);
    }
    forall m | m in modules ensures IsModuleWithin(m, b) <==> IsModuleCovered(m) {
      var i :| 0 <= i < |modules| && modules[i] == m;
      assert EntryFits(modules[i], b);
      WithinIffCovered(m, b);
    }
  }

  lemma {:induction false} LastIsOnly(modules: seq<Module>, i: nat)
    requires (forall j, k | 0 <= j < k < |modules| :: modules[j].path != modules[k].path) && i < |modules|
    ensures LastAt(modules, modules[i].path) == Some(modules[i])
  {
    if i < |modules| - 1 { LastIsOnly(modules[..|modules| - 1], i); }
  }

  lemma {:induction false} EntryIsMeasured(m: Module)
    requires IsProperModule(m)
    ensures IsEntry(FirstEntry(m)) && NamesIn(EntryOf(FirstEntry(m))) <= CallableNames(m.callables)
    ensures EntryOf(FirstEntry(m)).renamedFrom.None?
  {
    ExceptionalIsWellFormed(m.callables, ParamsOf, DEFAULT_MAX_PARAMS);
    ExceptionalIsWellFormed(m.callables, LinesOf, DEFAULT_MAX_CALLABLE_LINES);
  }

  // The effective limits of a module under its own first entry.
  lemma {:induction false} FirstLimits(m: Module, b: Budget, name: string)
    requires IsProperModule(m) && EntryFits(m, b)
    ensures LinesLimit(b, m.path) == if m.path in b then m.lines + Headroom(m.lines) else DEFAULT_MAX_LINES
    ensures m.path !in b ==> m.lines <= DEFAULT_MAX_LINES
    ensures ParamsLimit(b, m.path, name) == LimitIn(ExceptionalParams(m.callables), name, DEFAULT_MAX_PARAMS)
    ensures CallableLinesLimit(b, m.path, name)
            == LimitIn(ExceptionalLines(m.callables), name, DEFAULT_MAX_CALLABLE_LINES)
  {
    hide Exceptional;
    ExceptionalIsWellFormed(m.callables, ParamsOf, DEFAULT_MAX_PARAMS);
    ExceptionalIsWellFormed(m.callables, LinesOf, DEFAULT_MAX_CALLABLE_LINES);
  }

  // Every callable within the limit, or over it.
  predicate AllWithin(callables: seq<Callable>, size: Callable -> int, limit: int) {
    forall c | c in callables :: size(c) <= limit
  }

  // The limit of a name is that of its last callable over the default with headroom, if there is one.
  ghost predicate IsLimitOf(callables: seq<Callable>, size: Callable -> int, default_: int, name: string, limit: int) {
    if j: nat :| IsLastOver(callables, size, default_, j) && callables[j].name == name
    then limit == size(callables[j]) + Headroom(size(callables[j]))
    else limit == default_
  }

  lemma {:induction false} LimitIsThat(callables: seq<Callable>, size: Callable -> int, default_: int, name: string)
    ensures IsLimitOf(callables, size, default_, name, LimitIn(Exceptional(callables, size, default_), name, default_))
  {
    ExceptionalIsLast(callables, size, default_, name);
    forall i: nat, j: nat | && IsLastOver(callables, size, default_, i) && IsLastOver(callables, size, default_, j)
                            && callables[i].name == callables[j].name
      ensures i == j
    {
      LastOverIsUnique(callables, size, default_, i, j);
    }
  }

  lemma {:induction false} NothingExceptional(callables: seq<Callable>, size: Callable -> int, limit: int)
    ensures Exceptional(callables, size, limit) == map[] <==> AllWithin(callables, size, limit)
  {
    var e := Exceptional(callables, size, limit);
    if e == map[] {
      forall c | c in callables ensures size(c) <= limit { ExceptionalIsLast(callables, size, limit, c.name); }
    } else {
      var name := Pick(e.Keys);
      ExceptionalIsLast(callables, size, limit, name);
    }
  }

  // The first budget grants headroom where a default is exceeded, and nothing anywhere else.
  lemma {:induction false} InitialLimits(modules: seq<Module>, m: Module, name: string)
    requires AreProper(modules) && m in modules
    ensures var b := ParseAll(InitialBudget(modules));
            && b.Some?
            && (m.path in b.value <==> || m.lines > DEFAULT_MAX_LINES
                                       || !AllWithin(m.callables, ParamsOf, DEFAULT_MAX_PARAMS)
                                       || !AllWithin(m.callables, LinesOf, DEFAULT_MAX_CALLABLE_LINES))
            && LinesLimit(b.value, m.path) == (if m.path in b.value then m.lines + Headroom(m.lines)
                                               else DEFAULT_MAX_LINES)
            && IsLimitOf(m.callables, ParamsOf, DEFAULT_MAX_PARAMS, name, ParamsLimit(b.value, m.path, name))
            && IsLimitOf(m.callables, LinesOf, DEFAULT_MAX_CALLABLE_LINES, name,
                         CallableLinesLimit(b.value, m.path, name))
  {
    hide Exceptional, IsLimitOf, ParamsLimit, CallableLinesLimit, LinesLimit, LimitIn;
    assert modules[..|modules|] == modules;
    InitialParses(modules, |modules|);
    var b := ParseAll(InitialBudget(modules)).value;
    var i :| 0 <= i < |modules| && modules[i] == m;
    assert EntryFits(m, b);
    FirstLimits(m, b, name);
    NothingExceptional(m.callables, ParamsOf, DEFAULT_MAX_PARAMS);
    NothingExceptional(m.callables, LinesOf, DEFAULT_MAX_CALLABLE_LINES);
    LimitIsThat(m.callables, ParamsOf, DEFAULT_MAX_PARAMS, name);
    LimitIsThat(m.callables, LinesOf, DEFAULT_MAX_CALLABLE_LINES, name);
  }

  lemma {:induction false} WithinIffCovered(m: Module, b: Budget)
    requires IsProperModule(m) && EntryFits(m, b)
    ensures IsModuleWithin(m, b) <==> IsModuleCovered(m)
  {
    hide Exceptional, IsCovered, ParamsLimit, CallableLinesLimit, LinesLimit, EntryFits;
    KeptIffCovered(m.callables, ParamsOf, DEFAULT_MAX_PARAMS);
    KeptIffCovered(m.callables, LinesOf, DEFAULT_MAX_CALLABLE_LINES);
    FirstLimits(m, b, "");
    forall c | c in m.callables
      ensures IsCallableWithin(c, m.path, b)
              <==> && ParamsOf(c) <= LimitIn(ExceptionalParams(m.callables), c.name, DEFAULT_MAX_PARAMS)
                   && LinesOf(c) <= LimitIn(ExceptionalLines(m.callables), c.name, DEFAULT_MAX_CALLABLE_LINES)
    {
      FirstLimits(m, b, c.name);
    }
  }

  lemma {:induction false} LastOfAName(name: string)
    requires |name| > 0
    ensures var callables := [Callable(name, 30, 1), Callable(name, 20, 1)];
            ExceptionalParams(callables) == map[name := Number(25)] && ExceptionalLines(callables) == map[]
  {
    var c, d := Callable(name, 30, 1), Callable(name, 20, 1);
    assert [c, d][..1] == [c] && [c][..0] == [];
    assert ExceptionalParams([c]) == Exceptional([], ParamsOf, 10)[name := Number(35)] == map[name := Number(35)];
    assert Exceptional([c, d], ParamsOf, 10) == Exceptional([c], ParamsOf, 10)[name := Number(25)];
    assert Exceptional([c], LinesOf, 150) == Exceptional([], LinesOf, 150) == map[];
  }

  // With one name for two callables the first budget may already be broken.
  lemma {:induction false} SharedNameCanFail(path: string, name: string)
    requires |path| > 0 && |name| > 0
    ensures var modules := [Module(path, 1, [Callable(name, 30, 1), Callable(name, 20, 1)])];
            var b := ParseAll(InitialBudget(modules));
            b.Some? && !IsWithin(modules, b.value)
  {
    hide ExceptionalParams, ExceptionalLines, InitialBudget, ParseAll, IsWithin;
    var c, d := Callable(name, 30, 1), Callable(name, 20, 1);
    var m := Module(path, 1, [c, d]);
    LastOfAName(name);
    assert name in ExceptionalParams(m.callables);
    NothingInitial();
    InitialNext([], m);
    AppendParsed([], FirstEntry(m));
    assert [] + [FirstEntry(m)] == [FirstEntry(m)] && [] + [m] == [m];
    var b := ParseAll(InitialBudget([m])).value;
    assert b[path].maxParams[name] == 25;
    assert m in [m] && c in m.callables && !IsCallableWithin(c, path, b);
    NotWithin([m], m, c, b);
  }

  lemma {:induction false} NothingInitial()
    ensures InitialBudget([]) == [] && ParseAll([]) == Some(map[])
  {
  }

  lemma {:induction false} NotWithin(modules: seq<Module>, m: Module, c: Callable, b: Budget)
    requires m in modules && c in m.callables && !IsCallableWithin(c, m.path, b)
    ensures !IsWithin(modules, b)
  {
  }
}
