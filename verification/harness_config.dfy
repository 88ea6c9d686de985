/** `Configuration.merge` of the test harness (tests/harness/model/config.py):
    the five entry lists of another configuration are appended to this
    one's, then each list is checked, in a fixed order, for entries that
    share a key. The merge mutates before it checks, so a failing merge
    still leaves the lists extended; the model returns the extended
    configuration together with the error, if any. */
module HarnessConfig {
  import opened Wrappers

  /** The entry records; only the attribute used as key and an opaque body
      are modelled. */
  datatype DeploymentConfig = DeploymentConfig(name: string, body: string)
  datatype Secret = Secret(name: string, body: string)
  datatype TestConfig = TestConfig(moduleName: string, body: string)
  datatype TestRequirements = TestRequirements(name: string, body: string)
  datatype EnvironmentConfig = EnvironmentConfig(name: string, body: string)

  datatype Configuration = Configuration(
    configFile: string,
    deployments: seq<DeploymentConfig>,
    secrets: seq<Secret>,
    tests: seq<TestConfig>,
    requirements: seq<TestRequirements>,
    environments: seq<EnvironmentConfig>)

  /** The `ValueError` raised by `merge`: which kind of entry repeats a key,
      and the repeated keys as `check_duplicate_keys` lists them. */
  datatype MergeError = DuplicateKeys(itemName: string, duplicates: seq<string>)

  /** No key occurs twice. */
  predicate Distinct(keys: seq<string>) {
    forall i, j :: 0 <= i < j < |keys| ==> keys[i] != keys[j]
  }

  /** The keys of `keys` that occur more than once in `all`, in order and
      once per occurrence. */
  function RepeatedIn(keys: seq<string>, all: seq<string>): (r: seq<string>)
    ensures forall k :: multiset(r)[k] == if multiset(all)[k] > 1 then multiset(keys)[k] else 0
  {
    if |keys| == 0 then []
    else
      assert keys == [keys[0]] + keys[1..];
      (if multiset(all)[keys[0]] > 1 then [keys[0]] else []) + RepeatedIn(keys[1..], all)
  }

  /** `check_duplicate_keys`: every key whose count exceeds one, once per
      occurrence. */
  function CheckDuplicateKeys(keys: seq<string>): (r: seq<string>)
    ensures forall k :: multiset(r)[k] == if multiset(keys)[k] > 1 then multiset(keys)[k] else 0
    ensures |r| == 0 <==> Distinct(keys)
  {
    var r := RepeatedIn(keys, keys);
    DistinctIffNoRepeatedCount(keys);
    if |r| == 0 then r
    else
      assert r[0] in multiset(r);
      r
  }

  /** A key list is duplicate-free exactly when every key occurs at most once. */
  lemma {:induction false} DistinctIffNoRepeatedCount(keys: seq<string>)
    ensures Distinct(keys) <==> forall k :: multiset(keys)[k] <= 1
  {
    if Distinct(keys) {
      forall k ensures multiset(keys)[k] <= 1 {
        DistinctCountsAtMostOne(keys, k);
      }
    } else {
      var i, j :| 0 <= i < j < |keys| && keys[i] == keys[j];
      var k := keys[i];
      assert keys == keys[..j] + [keys[j]] + keys[j + 1..];
      assert keys[..j][i] == k;
      assert multiset(keys[..j])[k] >= 1;
      assert multiset(keys)[k] >= 2;
    }
  }

  lemma {:induction false} DistinctCountsAtMostOne(keys: seq<string>, k: string)
    requires Distinct(keys)
    ensures multiset(keys)[k] <= 1
  {
    if |keys| > 0 {
      var rest := keys[1..];
      assert keys == [keys[0]] + rest;
      assert Distinct(rest) by {
        forall i, j | 0 <= i < j < |rest| ensures rest[i] != rest[j] {
          assert rest[i] == keys[i + 1] && rest[j] == keys[j + 1];
        }
      }
      DistinctCountsAtMostOne(rest, k);
      if keys[0] == k {
        assert k !in rest by {
          forall i | 0 <= i < |rest| ensures rest[i] != k {
            assert rest[i] == keys[i + 1];
          }
        }
      }
    }
  }

  function DeploymentKeys(entries: seq<DeploymentConfig>): seq<string> {
    seq(|entries|, i requires 0 <= i < |entries| => entries[i].name)
  }

  function SecretKeys(entries: seq<Secret>): seq<string> {
    seq(|entries|, i requires 0 <= i < |entries| => entries[i].name)
  }

  /** Test entries are keyed by `module` (`moduleName` here), unlike the other four lists. */
  function TestKeys(entries: seq<TestConfig>): seq<string> {
    seq(|entries|, i requires 0 <= i < |entries| => entries[i].moduleName)
  }

  function RequirementKeys(entries: seq<TestRequirements>): seq<string> {
    seq(|entries|, i requires 0 <= i < |entries| => entries[i].name)
  }

  function EnvironmentKeys(entries: seq<EnvironmentConfig>): seq<string> {
    seq(|entries|, i requires 0 <= i < |entries| => entries[i].name)
  }

  /** The lists checked by `merge`, in order, with their key lists and the
      item names used in the error message. */
  function Checks(c: Configuration): (r: seq<(seq<string>, string)>)
    ensures |r| == 5
  {
    [ (DeploymentKeys(c.deployments), "deployment"),
      (SecretKeys(c.secrets), "secret"),
      (TestKeys(c.tests), "test requirement"),
      (RequirementKeys(c.requirements), "global requirement"),
      (EnvironmentKeys(c.environments), "environment") ]
  }

  /** The loop of `merge` over the checked lists: the index of the first
      list with a repeated key (a non-empty `check_duplicate_keys` result,
      see `CheckDuplicateKeys`), the one that raises. */
  function FirstRepeating(checks: seq<(seq<string>, string)>): (r: Option<nat>)
    ensures r.None? <==> forall i :: 0 <= i < |checks| ==> Distinct(checks[i].0)
    ensures r.Some? ==> r.value < |checks| && !Distinct(checks[r.value].0)
    ensures r.Some? ==> forall j :: 0 <= j < r.value ==> Distinct(checks[j].0)
  {
    if |checks| == 0 then None
    else if !Distinct(checks[0].0) then Some(0)
    else
      var rest := checks[1..];
      match FirstRepeating(rest)
      case None =>
        assert forall i :: 1 <= i < |checks| ==> checks[i] == rest[i - 1];
        None
      case Some(k) =>
        assert forall j :: 1 <= j <= k + 1 ==> checks[j] == rest[j - 1];
        Some(k + 1)
  }

  /** No merged list repeats a key. */
  predicate FreeOfRepeats(c: Configuration) {
    && Distinct(DeploymentKeys(c.deployments))
    && Distinct(SecretKeys(c.secrets))
    && Distinct(TestKeys(c.tests))
    && Distinct(RequirementKeys(c.requirements))
    && Distinct(EnvironmentKeys(c.environments))
  }

  /** The checking loop of `merge`: the error of the first list, in check
      order, that repeats a key. */
  function CheckLists(c: Configuration): (r: Option<MergeError>)
    ensures r.None? <==> FreeOfRepeats(c)
    ensures r.Some? ==> |r.value.duplicates| > 0
    ensures r.Some? ==>
              exists i :: 0 <= i < 5 && (forall j :: 0 <= j < i ==> Distinct(Checks(c)[j].0)) &&
                            r.value == DuplicateKeys(Checks(c)[i].1, CheckDuplicateKeys(Checks(c)[i].0))
  {
    var checks := Checks(c);
    FreeOfRepeatsIffAllChecks(c);
    match FirstRepeating(checks)
    case None => None
    case Some(i) => Some(DuplicateKeys(checks[i].1, CheckDuplicateKeys(checks[i].0)))
  }

  /** The five checks are exactly the conditions of `FreeOfRepeats`. */
  lemma FreeOfRepeatsIffAllChecks(c: Configuration)
    ensures FreeOfRepeats(c) <==> forall i :: 0 <= i < |Checks(c)| ==> Distinct(Checks(c)[i].0)
  {
    var checks := Checks(c);
    assert checks[0].0 == DeploymentKeys(c.deployments) && checks[1].0 == SecretKeys(c.secrets);
    assert checks[2].0 == TestKeys(c.tests) && checks[3].0 == RequirementKeys(c.requirements);
    assert checks[4].0 == EnvironmentKeys(c.environments);
    if forall i :: 0 <= i < |checks| ==> Distinct(checks[i].0) {
      assert Distinct(checks[0].0) && Distinct(checks[1].0) && Distinct(checks[2].0);
      assert Distinct(checks[3].0) && Distinct(checks[4].0);
    }
  }

  /** `Configuration.merge`: append, then check. */
  function Merge(self: Configuration, other: Configuration): (r: (Configuration, Option<MergeError>))
    ensures r.0.configFile == self.configFile
    ensures r.0.deployments == self.deployments + other.deployments
    ensures r.0.secrets == self.secrets + other.secrets
    ensures r.0.tests == self.tests + other.tests
    ensures r.0.requirements == self.requirements + other.requirements
    ensures r.0.environments == self.environments + other.environments
    ensures r.1.None? <==> FreeOfRepeats(r.0)
    ensures r.1.Some? ==> |r.1.value.duplicates| > 0
    ensures r.1.Some? ==>
              exists i :: 0 <= i < 5 && (forall j :: 0 <= j < i ==> Distinct(Checks(r.0)[j].0)) &&
                            r.1.value == DuplicateKeys(Checks(r.0)[i].1, CheckDuplicateKeys(Checks(r.0)[i].0))
  {
    var merged := self.(
      deployments := self.deployments + other.deployments,
      secrets := self.secrets + other.secrets,
      tests := self.tests + other.tests,
      requirements := self.requirements + other.requirements,
      environments := self.environments + other.environments);
    (merged, CheckLists(merged))
  }

  /** Merging with an empty configuration succeeds exactly when this
      configuration is already free of repeated keys, and changes no list. */
  lemma MergeEmptyIsCheckOnly(self: Configuration, other: Configuration)
    requires other.deployments == [] && other.secrets == [] && other.tests == []
    requires other.requirements == [] && other.environments == []
    ensures Merge(self, other).0 == self
  {
    assert self.deployments + [] == self.deployments;
    assert self.secrets + [] == self.secrets;
    assert self.tests + [] == self.tests;
    assert self.requirements + [] == self.requirements;
    assert self.environments + [] == self.environments;
  }

  /** A key listed twice is reported twice. */
  lemma KeyTwiceReportedTwice(k: string)
    ensures CheckDuplicateKeys([k, k]) == [k, k]
  {
    var keys := [k, k];
    assert multiset(keys)[k] == 2;
    assert keys[1..] == [k];
    assert RepeatedIn(keys[1..][1..], keys) == [];
    assert RepeatedIn(keys[1..], keys) == [k];
  }

  /** Merging stops at the first list, deployments, when it holds one name twice. */
  lemma RepeatedDeploymentReported(c: Configuration, k: string)
    requires DeploymentKeys(c.deployments) == [k, k]
    ensures CheckLists(c) == Some(DuplicateKeys("deployment", [k, k]))
  {
    KeyTwiceReportedTwice(k);
    assert Checks(c)[0] == ([k, k], "deployment");
    assert FirstRepeating(Checks(c)) == Some(0);
  }

  /** Deployments are keyed by name alone: two deployments with one name
      are refused even though their bodies differ. */
  lemma KeyAttributeExample()
    ensures var a := Configuration("a.yaml", [DeploymentConfig("local", "x")], [], [TestConfig("m", "t")], [], []);
            var b := Configuration("b.yaml", [DeploymentConfig("local", "y")], [], [TestConfig("n", "t")], [], []);
            Merge(a, b).1 == Some(DuplicateKeys("deployment", ["local", "local"]))
  {
    var a := Configuration("a.yaml", [DeploymentConfig("local", "x")], [], [TestConfig("m", "t")], [], []);
    var b := Configuration("b.yaml", [DeploymentConfig("local", "y")], [], [TestConfig("n", "t")], [], []);
    var merged := Merge(a, b).0;
    assert DeploymentKeys(merged.deployments) == ["local", "local"];
    RepeatedDeploymentReported(merged, "local");
  }
}
