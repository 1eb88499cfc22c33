/** The health endpoints: collecting check results and aggregating a status, in whatever order maps are iterated. */
module HealthChecks {
  import opened Bytes

  /** What a `Check` returns: nil, or an error with a text. */
  type Check = Option<string>

  type Checks = map<string, Check>

  const STATUS_OK: int := 200
  const STATUS_METHOD_NOT_ALLOWED: int := 405
  const STATUS_SERVICE_UNAVAILABLE: int := 503

  ghost predicate AllPass(checks: Checks) {
    forall name :: name in checks ==> checks[name] == None
  }

  /** The text reported for a check. */
  function Text(outcome: Check): string {
    match outcome
    case None => "OK"
    case Some(text) => text
  }

  /** A report is "OK" for a check that passes, and otherwise the error's own text. */
  predicate Reports(text: string, outcome: Check) {
    (outcome == None ==> text == "OK") && (outcome.Some? ==> text == outcome.value)
  }

  ghost function Texts(checks: Checks): map<string, string> {
    map name | name in checks :: Text(checks[name])
  }

  /** The texts of some of the checks, over what was there before, and whether those checks pass. */
  ghost function Over(before: map<string, string>, checks: Checks, seen: set<string>): map<string, string> {
    before + map name | name in checks && name in seen :: Text(checks[name])
  }

  ghost predicate SeenPass(checks: Checks, seen: set<string>) {
    forall name :: name in checks && name in seen ==> checks[name] == None
  }

  lemma NoneSeen(before: map<string, string>, checks: Checks)
    ensures Over(before, checks, {}) == before && SeenPass(checks, {})
  {
  }

  lemma AllSeen(before: map<string, string>, checks: Checks)
    ensures Over(before, checks, checks.Keys) == before + Texts(checks)
    ensures SeenPass(checks, checks.Keys) <==> AllPass(checks)
  {
  }

  lemma OneMore(before: map<string, string>, checks: Checks, seen: set<string>, name: string)
    requires name in checks
    ensures Over(before, checks, seen + {name}) == Over(before, checks, seen)[name := Text(checks[name])]
    ensures SeenPass(checks, seen + {name}) <==> SeenPass(checks, seen) && checks[name] == None
  {
  }

  /** The `resultsOut` map and the status that `handle` shares with `collectChecks`. */
  class Report {
    var results: map<string, string>
    var status: int

    constructor ()
      ensures results == map[] && status == STATUS_OK
    {
      results, status := map[], STATUS_OK;
    }

    /** One turn of the loop in `collectChecks`. */
    method Add(name: string, outcome: Check)
      modifies this
      ensures results == old(results)[name := Text(outcome)]
      ensures status == if outcome == None then old(status) else STATUS_SERVICE_UNAVAILABLE
    {
      if outcome.Some? {
        status := STATUS_SERVICE_UNAVAILABLE;
      }
      results := results[name := Text(outcome)];
    }
  }

  /** The status code, and the JSON object when `?full=1` asks for it. */
  datatype Response = Response(status: int, results: Option<map<string, string>>)

  /** `basicHandler`. */
  class BasicHandler {
    var livenessChecks: Checks
    var readinessChecks: Checks

    constructor ()
      ensures livenessChecks == map[] && readinessChecks == map[]
    {
      livenessChecks, readinessChecks := map[], map[];
    }

    method AddLivenessCheck(name: string, check: Check)
      modifies this`livenessChecks
      ensures livenessChecks == old(livenessChecks)[name := check]
    {
      livenessChecks := livenessChecks[name := check];
    }

    method AddReadinessCheck(name: string, check: Check)
      modifies this`readinessChecks
      ensures readinessChecks == old(readinessChecks)[name := check]
    {
      readinessChecks := readinessChecks[name := check];
    }

    /** `collectChecks`: later results replace earlier ones of the same name; one failure settles the status. */
    method CollectChecks(checks: Checks, out: Report)
      modifies out
      ensures out.results == old(out.results) + Texts(checks)
      ensures out.status == if AllPass(checks) then old(out.status) else STATUS_SERVICE_UNAVAILABLE
    {
      ghost var before, status := out.results, out.status;
      var names := checks.Keys;
      ghost var seen: set<string> := {};
      NoneSeen(before, checks);
      while names != {}
        invariant names <= checks.Keys && seen == checks.Keys - names
        invariant out.results == Over(before, checks, seen)
        invariant out.status == if SeenPass(checks, seen) then status else STATUS_SERVICE_UNAVAILABLE
        decreases |names|
      {
        var name :| name in names;
        OneMore(before, checks, seen, name);
        out.Add(name, checks[name]);
        seen := seen + {name};
        names := names - {name};
      }
      assert seen == checks.Keys;
      AllSeen(before, checks);
    }

    /** `handle`, over several groups of checks in turn. */
    method Handle(isGet: bool, full: bool, groups: seq<Checks>) returns (response: Response)
      ensures !isGet ==> response == Response(405, None)
      ensures isGet ==> response.status == 200 || response.status == 503
      ensures isGet ==> (response.status == 200 <==> forall k :: 0 <= k < |groups| ==> AllPass(groups[k]))
      ensures isGet ==> response.results == if full then Some(Merged(groups)) else None
    {
      if !isGet {
        return Response(STATUS_METHOD_NOT_ALLOWED, None);
      }
      var report := new Report();
      var k := 0;
      while k < |groups|
        invariant 0 <= k <= |groups| && fresh(report)
        invariant report.results == Merged(groups[..k])
        invariant report.status == STATUS_OK || report.status == STATUS_SERVICE_UNAVAILABLE
        invariant report.status == STATUS_OK <==> forall i :: 0 <= i < k ==> AllPass(groups[i])
      {
        CollectChecks(groups[k], report);
        assert groups[..k + 1][..k] == groups[..k];
        k := k + 1;
      }
      assert groups[..|groups|] == groups;
      return Response(report.status, if full then Some(report.results) else None);
    }

    /** `LiveEndpoint`: 200 exactly when every liveness check passes. */
    method LiveEndpoint(isGet: bool, full: bool) returns (response: Response)
      ensures !isGet ==> response == Response(405, None)
      ensures isGet ==> response.status == 200 || response.status == 503
      ensures isGet ==> (response.status == 200 <==> forall n :: n in livenessChecks ==> livenessChecks[n] == None)
      ensures isGet && !full ==> response.results == None
      ensures isGet && full ==> response.results.Some? && response.results.value.Keys == livenessChecks.Keys
      ensures isGet && full ==>
                forall n :: n in livenessChecks ==> Reports(response.results.value[n], livenessChecks[n])
    {
      var groups := [livenessChecks];
      response := Handle(isGet, full, groups);
      assert groups[0] == livenessChecks;
      MergedOne(livenessChecks);
    }

    /**
     * `ReadyEndpoint`: 200 exactly when every readiness and every liveness check passes.  Every name of either kind is
     * reported; where both have it, the liveness text is, though a failing readiness check still counts.
     */
    method ReadyEndpoint(isGet: bool, full: bool) returns (response: Response)
      ensures !isGet ==> response == Response(405, None)
      ensures isGet ==> response.status == 200 || response.status == 503
      ensures isGet ==> (response.status == 200 <==>
                         && (forall n :: n in readinessChecks ==> readinessChecks[n] == None)
                         && (forall n :: n in livenessChecks ==> livenessChecks[n] == None))
      ensures isGet && !full ==> response.results == None
      ensures isGet && full ==> response.results.Some?
      ensures isGet && full ==> response.results.value.Keys == readinessChecks.Keys + livenessChecks.Keys
      ensures isGet && full ==>
                forall n :: n in livenessChecks ==> Reports(response.results.value[n], livenessChecks[n])
      ensures isGet && full ==>
                forall n :: n in readinessChecks && n !in livenessChecks ==>
                  Reports(response.results.value[n], readinessChecks[n])
    {
      var groups := [readinessChecks, livenessChecks];
      response := Handle(isGet, full, groups);
      assert groups[0] == readinessChecks && groups[1] == livenessChecks;
      MergedTwo(readinessChecks, livenessChecks);
    }
  }

  /** The texts of all groups, later ones over earlier ones. */
  ghost function Merged(groups: seq<Checks>): map<string, string> {
    if groups == [] then map[] else Merged(groups[..|groups| - 1]) + Texts(groups[|groups| - 1])
  }

  lemma MergedOne(a: Checks)
    ensures Merged([a]) == Texts(a)
  {
    assert [a][..0] == [];
    assert Merged([a][..0]) == map[];
  }

  lemma MergedTwo(a: Checks, b: Checks)
    ensures Merged([a, b]) == Texts(a) + Texts(b)
  {
    assert [a, b][..1] == [a];
    MergedOne(a);
  }

  /** Group `k` is the last to have a check of that name. */
  ghost predicate LastWith(groups: seq<Checks>, name: string, k: int) {
    0 <= k < |groups| && name in groups[k] && forall j :: k < j < |groups| ==> name !in groups[j]
  }

  /** One more group: its names are added, with its texts. */
  lemma OneMoreGroup(groups: seq<Checks>, name: string)
    requires groups != []
    ensures var before, last := Merged(groups[..|groups| - 1]), groups[|groups| - 1];
            && (name in Merged(groups) <==> name in before || name in last)
            && (name in last ==> Merged(groups)[name] == Text(last[name]))
            && (name in before && name !in last ==> Merged(groups)[name] == before[name])
  {
  }

  /** Every group's names are reported, and each with the text of the last group that has it. */
  lemma {:induction false} MergedIsLastText(groups: seq<Checks>, name: string)
    ensures name in Merged(groups) <==> exists k :: 0 <= k < |groups| && name in groups[k]
    ensures forall k :: LastWith(groups, name, k) ==> Reports(Merged(groups)[name], groups[k][name])
    decreases |groups|
  {
    if groups != [] {
      var before := groups[..|groups| - 1];
      MergedIsLastText(before, name);
      OneMoreGroup(groups, name);
      assert forall k :: 0 <= k < |before| ==> before[k] == groups[k];
      forall k | LastWith(groups, name, k)
        ensures Reports(Merged(groups)[name], groups[k][name])
      {
        if k < |before| {
          assert LastWith(before, name, k);
        }
      }
    }
  }
}
