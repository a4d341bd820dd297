/** Message routing of the build tool's configuration validation
    (dev/serger.py): `collect_msg` files a message under errors, strict
    warnings or warnings of a `ValidationSummary`, and `warn_keys_once`
    reports configuration keys that are out of place, either at once or
    into the aggregator that collects one message per tag. */
module ValidationSummary {
  import opened Wrappers
  import opened Text
  import Sorting

  /** A message template: literal text and the two fields `{keys}` and
      `{ctx}` that `str.format` fills in. */
  datatype Piece = Lit(text: string) | KeysField | CtxField
  type Template = seq<Piece>

  /** `template.format(keys=keys, ctx=ctx)` */
  function Render(t: Template, keys: string, ctx: string): string
    decreases |t|
  {
    if t == [] then ""
    else
      var head := match t[0]
        case Lit(text) => text
        case KeysField => keys
        case CtxField => ctx;
      head + Render(t[1..], keys, ctx)
  }

  /** A template without fields renders as its literal text whatever it is
      given. */
  lemma {:induction false} RenderIgnoresUnusedFields(t: Template, k1: string, c1: string, k2: string, c2: string)
    requires forall i | 0 <= i < |t| :: t[i].Lit?
    ensures Render(t, k1, c1) == Render(t, k2, c2)
    decreases |t|
  {
    if t != [] {
      RenderIgnoresUnusedFields(t[1..], k1, c1, k2, c2);
    }
  }

  datatype Bucket = Errors | StrictWarnings | Warnings

  /** Where `collect_msg` files a message: errors are always errors;
      warnings become strict warnings in strict mode. */
  function BucketFor(strict: bool, isError: bool): (b: Bucket)
    ensures isError <==> b == Errors
    ensures b == StrictWarnings <==> !isError && strict
  {
    if isError then Errors else if strict then StrictWarnings else Warnings
  }

  class ValidationSummary {
    var valid: bool
    var errors: seq<string>
    var strictWarnings: seq<string>
    var warnings: seq<string>
    var strict: bool

    constructor(valid: bool, strict: bool)
      ensures this.valid == valid && this.strict == strict
      ensures errors == [] && strictWarnings == [] && warnings == []
    {
      this.valid := valid;
      this.strict := strict;
      errors := [];
      strictWarnings := [];
      warnings := [];
    }

    /** The messages of one bucket. */
    function Messages(b: Bucket): seq<string>
      reads this
    {
      match b
      case Errors => errors
      case StrictWarnings => strictWarnings
      case Warnings => warnings
    }

    /** `collect_msg`: the message is appended to the bucket `BucketFor`
        chooses and the other buckets, the verdict and the strictness flag
        are unchanged. */
    method CollectMsg(msg: string, strict: bool, isError: bool)
      modifies this`errors, this`strictWarnings, this`warnings
      ensures forall b :: Messages(b) == old(Messages(b)) + (if b == BucketFor(strict, isError) then [msg] else [])
    {
      if isError {
        errors := errors + [msg];
      } else if strict {
        strictWarnings := strictWarnings + [msg];
      } else {
        warnings := warnings + [msg];
      }
    }
  }

  const AGG_STRICT_WARN: string := "strict_warnings"
  const AGG_WARN: string := "warnings"

  /** One aggregated tag: the message template first recorded for it and
      the contexts it was seen in. */
  datatype AggEntry = AggEntry(msg: Template, contexts: seq<string>)

  /** The aggregator, indexed by severity and then by tag. */
  class Aggregator {
    var buckets: map<string, map<string, AggEntry>>

    constructor()
      ensures buckets == map[]
    {
      buckets := map[];
    }
  }

  /** Recording `context` under `severity` and `tag`: the entry keeps the
      template it already has (or takes `msg` when new) and gains the
      context at the end; every other entry is unchanged. */
  function AddContext(buckets: map<string, map<string, AggEntry>>, severity: string, tag: string,
                      msg: Template, context: string): (r: map<string, map<string, AggEntry>>)
    ensures severity in r && tag in r[severity]
    ensures var old_ := if severity in buckets && tag in buckets[severity] then Some(buckets[severity][tag]) else None;
      r[severity][tag] == if old_.Some? then old_.value.(contexts := old_.value.contexts + [context])
                          else AggEntry(msg, [context])
    ensures r.Keys == buckets.Keys + {severity}
    ensures forall s | s in buckets && s != severity :: r[s] == buckets[s]
    ensures severity in buckets ==> r[severity].Keys == buckets[severity].Keys + {tag}
    ensures severity in buckets ==>
      forall t | t in buckets[severity] && t != tag :: r[severity][t] == buckets[severity][t]
  {
    var bucket := if severity in buckets then buckets[severity] else map[];
    var entry := if tag in bucket then bucket[tag] else AggEntry(msg, []);
    buckets[severity := bucket[tag := entry.(contexts := entry.contexts + [context])]]
  }

  /** The last of `keys` whose lower-case form is `l`. */
  function LastWithLower(keys: seq<string>, l: string): (r: Option<string>)
    ensures r.Some? ==> r.value in keys && Lower(r.value) == l
    ensures r.None? <==> forall i | 0 <= i < |keys| :: Lower(keys[i]) != l
  {
    if keys == [] then None
    else if Lower(keys[|keys| - 1]) == l then Some(keys[|keys| - 1])
    else
      var r := LastWithLower(keys[..|keys| - 1], l);
      assert forall i | 0 <= i < |keys| - 1 :: keys[..|keys| - 1][i] == keys[i];
      r
  }

  /** The table `{k.lower(): k for k in keys}`: each lower-case form of a
      key, mapped to the last key having it. */
  function LastByLower(keys: seq<string>): (r: map<string, string>)
    ensures forall i | 0 <= i < |keys| :: Lower(keys[i]) in r
    ensures forall l | l in r :: LastWithLower(keys, l) == Some(r[l])
  {
    if keys == [] then map[]
    else
      var init := keys[..|keys| - 1];
      var last := keys[|keys| - 1];
      var m := LastByLower(init);
      assert forall i | 0 <= i < |init| :: init[i] == keys[i];
      m[Lower(last) := last]
  }

  /** The lower-case forms of a set of keys. */
  function LowerSet(keys: set<string>): set<string> {
    set k | k in keys :: Lower(k)
  }

  /** The keys `warn_keys_once` finds: for each lower-case form shared by a
      bad key and a configuration key, the configuration key as written (the
      last one, when several differ only in case). */
  function FoundKeys(badKeys: set<string>, cfgKeys: seq<string>): set<string> {
    var table := LastByLower(cfgKeys);
    set l | l in table && l in LowerSet(badKeys) :: table[l]
  }

  /** The found keys are configuration keys matching a bad key up to case. */
  lemma FoundKeysMatch(badKeys: set<string>, cfgKeys: seq<string>)
    ensures forall k | k in FoundKeys(badKeys, cfgKeys) :: k in cfgKeys && exists b | b in badKeys :: Lower(b) == Lower(k)
  {
    var table := LastByLower(cfgKeys);
    forall k | k in FoundKeys(badKeys, cfgKeys)
      ensures k in cfgKeys && exists b | b in badKeys :: Lower(b) == Lower(k)
    {
      var l :| l in table && l in LowerSet(badKeys) && table[l] == k;
      assert LastWithLower(cfgKeys, l) == Some(k);
      var b :| b in badKeys && Lower(b) == l;
    }
  }

  /** Every configuration key matching a bad key up to case has a found key
      of the same lower-case form. */
  lemma FoundKeysCover(badKeys: set<string>, cfgKeys: seq<string>)
    ensures forall i, b | 0 <= i < |cfgKeys| && b in badKeys && Lower(b) == Lower(cfgKeys[i]) ::
      exists k | k in FoundKeys(badKeys, cfgKeys) :: Lower(k) == Lower(cfgKeys[i])
  {
    var table := LastByLower(cfgKeys);
    forall i, b | 0 <= i < |cfgKeys| && b in badKeys && Lower(b) == Lower(cfgKeys[i])
      ensures exists k | k in FoundKeys(badKeys, cfgKeys) :: Lower(k) == Lower(cfgKeys[i])
    {
      var l := Lower(cfgKeys[i]);
      assert l in table;
      assert l in LowerSet(badKeys);
      assert LastWithLower(cfgKeys, l) == Some(table[l]);
      assert table[l] in FoundKeys(badKeys, cfgKeys);
    }
  }

  /** No two found keys differ only in case. */
  lemma FoundKeysDistinctUpToCase(badKeys: set<string>, cfgKeys: seq<string>)
    ensures forall k1, k2 | k1 in FoundKeys(badKeys, cfgKeys) && k2 in FoundKeys(badKeys, cfgKeys) ::
      Lower(k1) == Lower(k2) ==> k1 == k2
  {
    var table := LastByLower(cfgKeys);
    forall k1, k2 | k1 in FoundKeys(badKeys, cfgKeys) && k2 in FoundKeys(badKeys, cfgKeys) && Lower(k1) == Lower(k2)
      ensures k1 == k2
    {
      var l1 :| l1 in table && l1 in LowerSet(badKeys) && table[l1] == k1;
      var l2 :| l2 in table && l2 in LowerSet(badKeys) && table[l2] == k2;
      assert LastWithLower(cfgKeys, l1) == Some(k1) && LastWithLower(cfgKeys, l2) == Some(k2);
    }
  }

  /** Keys differing only in case: the one written last in the
      configuration is the one reported. */
  lemma LastSpellingReported()
    ensures FoundKeys({"dry-run"}, ["Dry-Run", "DRY-RUN"]) == {"DRY-RUN"}
  {
    var cfg := ["Dry-Run", "DRY-RUN"];
    assert Lower("Dry-Run") == "dry-run" && Lower("DRY-RUN") == "dry-run" && Lower("dry-run") == "dry-run";
    assert cfg[..1] == ["Dry-Run"];
    var table := LastByLower(cfg);
    assert table == map["dry-run" := "DRY-RUN"];
    assert LowerSet({"dry-run"}) == {"dry-run"};
  }

  /** The found keys, sorted, as the immediate message lists them. */
  predicate SortedListing(ks: seq<string>, found: set<string>) {
    (forall x | x in ks :: x in found) && (forall x | x in found :: x in ks) && |ks| == |found| && Sorting.Sorted(ks, Sorting.StrLe)
  }

  /** `sorted(found)` */
  method SortedKeys(found: set<string>) returns (ks: seq<string>)
    ensures SortedListing(ks, found)
  {
    var list: seq<string> := [];
    var rest := found;
    while rest != {}
      invariant rest <= found
      invariant forall x :: x in list <==> x in found - rest
      invariant |list| + |rest| == |found|
      decreases |rest|
    {
      var x :| x in rest;
      list := list + [x];
      rest := rest - {x};
    }
    ks := Sorting.SortStrings(list);
    assert forall x :: x in ks <==> x in multiset(ks);
    assert forall x :: x in list <==> x in multiset(list);
  }

  /** The lower-case forms shared by a bad key and a configuration key, and
      the configuration keys as written for them; both are empty together. */
  method MatchKeys(badKeys: set<string>, cfgKeys: seq<string>) returns (foundLower: set<string>, found: set<string>)
    ensures found == FoundKeys(badKeys, cfgKeys)
    ensures foundLower == {} <==> found == {}
  {
    var table := LastByLower(cfgKeys);
    foundLower := set l | l in table && l in LowerSet(badKeys);
    found := set l | l in foundLower :: table[l];
    if foundLower != {} {
      var l0 :| l0 in foundLower;
      assert table[l0] in found;
    }
  }

  /** `warn_keys_once`: `found` is what `FoundKeys` describes, and the
      verdict is invalid exactly when keys were found in strict mode. With
      nothing found nothing changes. Otherwise, with an aggregator the
      context is recorded under the strict or plain severity and the tag;
      without one, the message listing the sorted keys is collected at once,
      as a strict warning in strict mode. */
  method WarnKeysOnce(tag: string, badKeys: set<string>, cfgKeys: seq<string>, context: string, msg: Template,
                      strictConfig: bool, summary: ValidationSummary, agg: Aggregator?)
    returns (valid: bool, found: set<string>)
    modifies summary`errors, summary`strictWarnings, summary`warnings
    modifies if agg != null then {agg} else {}
    ensures found == FoundKeys(badKeys, cfgKeys)
    ensures valid <==> !(found != {} && strictConfig)
    ensures summary.valid == old(summary.valid)
    ensures found == {} || agg != null ==> forall b :: summary.Messages(b) == old(summary.Messages(b))
    ensures agg != null && found == {} ==> agg.buckets == old(agg.buckets)
    ensures agg != null && found != {} ==>
      agg.buckets == AddContext(old(agg.buckets), if strictConfig then AGG_STRICT_WARN else AGG_WARN, tag, msg, context)
    ensures found != {} && agg == null ==> exists ks | SortedListing(ks, found) ::
      forall b :: summary.Messages(b) == old(summary.Messages(b))
        + (if b == BucketFor(strictConfig, false) then [Render(msg, Join(ks, ", "), context)] else [])
  {
    var foundLower;
    foundLower, found := MatchKeys(badKeys, cfgKeys);
    if foundLower == {} {
      return true, {};
    }
    valid := true;
    if agg != null {
      var severity := if strictConfig then AGG_STRICT_WARN else AGG_WARN;
      agg.buckets := AddContext(agg.buckets, severity, tag, msg, context);
    } else {
      var ks := SortedKeys(found);
      summary.CollectMsg(Render(msg, Join(ks, ", "), context), strictConfig, false);
    }
    if strictConfig {
      valid := false;
    }
  }
}
