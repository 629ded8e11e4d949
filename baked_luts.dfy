/** The Legal/Full expansion at the start of the 1.0.0 package's
    `generate_baked_LUTs`: a copy of the ODT dictionary in which each ODT
    with the full/legal switch is replaced by a '<ctl> - Legal' and a
    '<ctl> - Full' entry whose user names carry the same suffix. The loop
    runs over a Python 2 dictionary, whose order is not specified, so the
    dictionary is a map and the loop picks its keys in any order. */
module BakedLuts {
  import opened Py
  import opened CtlHeader
  import opened Discovery

  const LegalSuffix := " - Legal"
  const FullSuffix := " - Full"

  /** The entry copied with its user name suffixed. */
  function WithSuffix(e: Entry, suffix: string): (r: Entry)
    ensures r.names.userName == e.names.userName + suffix
    ensures r.ctl == e.ctl && r.ctlInverse == e.ctlInverse && r.fullLegal == e.fullLegal
    ensures r.names.transformId == e.names.transformId
  {
    e.(names := e.names.(userName := e.names.userName + suffix))
  }

  /** The entry has the full/legal switch. */
  predicate Switched(e: Entry)
  {
    e.fullLegal == Some(true)
  }

  /** No ODT key is another key with a suffix added: the new keys never
      land on an existing one. */
  ghost predicate NoSuffixClash(info: map<string, Entry>)
  {
    forall k, j :: k in info && j in info ==> k + LegalSuffix != j && k + FullSuffix != j
  }

  /** Every key not yet replaced keeps its entry. */
  ghost predicate KeptOriginals(info: map<string, Entry>, done: set<string>, c: map<string, Entry>)
  {
    forall k :: k in info && !(k in done && Switched(info[k])) ==> k in c && c[k] == info[k]
  }

  /** A processed switched key is gone and its two suffixed entries are
      present. */
  ghost predicate ReplacedSwitched(info: map<string, Entry>, done: set<string>, c: map<string, Entry>)
  {
    forall k :: k in done && k in info && Switched(info[k]) ==>
      k !in c &&
      k + LegalSuffix in c && c[k + LegalSuffix] == WithSuffix(info[k], LegalSuffix) &&
      k + FullSuffix in c && c[k + FullSuffix] == WithSuffix(info[k], FullSuffix)
  }

  /** Nothing else is present. */
  ghost predicate NothingElse(info: map<string, Entry>, done: set<string>, c: map<string, Entry>)
  {
    forall key :: key in c ==>
      (key in info && !(key in done && Switched(info[key]))) ||
      exists k :: k in done && k in info && Switched(info[k]) && (key == k + LegalSuffix || key == k + FullSuffix)
  }

  /** c is the copy after the keys in done have been processed. */
  ghost predicate ExpandedFrom(info: map<string, Entry>, done: set<string>, c: map<string, Entry>)
  {
    KeptOriginals(info, done, c) && ReplacedSwitched(info, done, c) && NothingElse(info, done, c)
  }

  /** Adding the same suffix to two different keys gives different keys. */
  lemma SuffixInjective(a: string, b: string, suffix: string)
    requires a + suffix == b + suffix
    ensures a == b
  {
    assert |a| == |b|;
    assert a == (a + suffix)[..|a|];
    assert b == (b + suffix)[..|b|];
  }

  /** A Legal key is never a Full key. */
  lemma LegalIsNotFull(a: string, b: string)
    ensures a + LegalSuffix != b + FullSuffix
  {
    var x, y := a + LegalSuffix, b + FullSuffix;
    if |x| == |y| {
      assert x[|a| + 4] == LegalSuffix[4] == 'e';
      assert y[|b| + 3] == FullSuffix[3] == 'F';
    }
  }

  /** The expansion loop. Every ODT is asked for its switch (KeyError when
      an entry has none); a switched key is deleted from the copy after
      its two entries are added, and it is always present at that point. */
  method ExpandSwitchedOdts(info: map<string, Entry>) returns (r: Result<map<string, Entry>>)
    ensures r.Err? <==> exists k :: k in info && info[k].fullLegal.None?
    ensures r.Err? ==> r.error == KeyError("transformHasFullLegalSwitch")
    ensures r.Ok? && NoSuffixClash(info) ==> ExpandedFrom(info, info.Keys, r.value)
  {
    var c := info;
    var todo := info.Keys;
    ghost var done: set<string> := {};
    while todo != {}
      invariant todo + done == info.Keys && todo !! done
      invariant forall k :: k in done ==> info[k].fullLegal.Some?
      invariant forall k :: k in todo ==> k in c
      invariant NoSuffixClash(info) ==> ExpandedFrom(info, done, c)
      decreases todo
    {
      var k :| k in todo;
      var values := info[k];
      if values.fullLegal.None? {
        return Err(KeyError("transformHasFullLegalSwitch"));
      }
      ghost var c0 := c;
      if values.fullLegal.value {
        c := c[k + LegalSuffix := WithSuffix(values, LegalSuffix)];
        c := c[k + FullSuffix := WithSuffix(values, FullSuffix)];
        assert k in c;
        c := c - {k};
      }
      todo := todo - {k};
      done := done + {k};
      if NoSuffixClash(info) {
        StepKeeps(info, done - {k}, k, c0, c);
      }
    }
    r := Ok(c);
  }

  /** Processing one more key keeps the copy in the expected shape. */
  lemma StepKeeps(info: map<string, Entry>, done: set<string>, k: string, c0: map<string, Entry>, c: map<string, Entry>)
    requires NoSuffixClash(info) && k in info && k !in done && info[k].fullLegal.Some?
    requires ExpandedFrom(info, done, c0)
    requires Switched(info[k]) ==>
               c == c0[k + LegalSuffix := WithSuffix(info[k], LegalSuffix)][k + FullSuffix := WithSuffix(info[k], FullSuffix)] - {k}
    requires !Switched(info[k]) ==> c == c0
    ensures ExpandedFrom(info, done + {k}, c)
  {
    if Switched(info[k]) {
      StepKeepsOriginals(info, done, k, c0, c);
      StepReplaces(info, done, k, c0, c);
      StepAddsNothingElse(info, done, k, c0, c);
    }
  }

  lemma StepKeepsOriginals(info: map<string, Entry>, done: set<string>, k: string, c0: map<string, Entry>, c: map<string, Entry>)
    requires NoSuffixClash(info) && k in info && Switched(info[k])
    requires KeptOriginals(info, done, c0)
    requires c == c0[k + LegalSuffix := WithSuffix(info[k], LegalSuffix)][k + FullSuffix := WithSuffix(info[k], FullSuffix)] - {k}
    ensures KeptOriginals(info, done + {k}, c)
  {
    forall j | j in info && !(j in done + {k} && Switched(info[j]))
      ensures j in c && c[j] == info[j]
    {
      assert j != k + LegalSuffix && j != k + FullSuffix;
    }
  }

  lemma StepReplaces(info: map<string, Entry>, done: set<string>, k: string, c0: map<string, Entry>, c: map<string, Entry>)
    requires NoSuffixClash(info) && k in info && k !in done && Switched(info[k])
    requires ReplacedSwitched(info, done, c0)
    requires c == c0[k + LegalSuffix := WithSuffix(info[k], LegalSuffix)][k + FullSuffix := WithSuffix(info[k], FullSuffix)] - {k}
    ensures ReplacedSwitched(info, done + {k}, c)
  {
    LegalIsNotFull(k, k);
    forall j | j in done + {k} && j in info && Switched(info[j])
      ensures j !in c
      ensures j + LegalSuffix in c && c[j + LegalSuffix] == WithSuffix(info[j], LegalSuffix)
      ensures j + FullSuffix in c && c[j + FullSuffix] == WithSuffix(info[j], FullSuffix)
    {
      if j != k {
        StepKeepsReplaced(info, done, k, c0, c, j);
      }
    }
  }

  /** A key replaced earlier stays replaced. */
  lemma StepKeepsReplaced(info: map<string, Entry>, done: set<string>, k: string, c0: map<string, Entry>, c: map<string, Entry>, j: string)
    requires NoSuffixClash(info) && k in info && Switched(info[k])
    requires j in done && j in info && Switched(info[j]) && j != k
    requires ReplacedSwitched(info, done, c0)
    requires c == c0[k + LegalSuffix := WithSuffix(info[k], LegalSuffix)][k + FullSuffix := WithSuffix(info[k], FullSuffix)] - {k}
    ensures j !in c
    ensures j + LegalSuffix in c && c[j + LegalSuffix] == WithSuffix(info[j], LegalSuffix)
    ensures j + FullSuffix in c && c[j + FullSuffix] == WithSuffix(info[j], FullSuffix)
  {
    SuffixedKeysDistinct(info, j, k);
    assert j !in c0;
    assert j + LegalSuffix in c0 && c0[j + LegalSuffix] == WithSuffix(info[j], LegalSuffix);
    assert j + FullSuffix in c0 && c0[j + FullSuffix] == WithSuffix(info[j], FullSuffix);
  }

  /** Two different ODT keys and their four suffixed keys are six
      different keys. */
  lemma SuffixedKeysDistinct(info: map<string, Entry>, j: string, k: string)
    requires NoSuffixClash(info) && j in info && k in info && j != k
    ensures j != k + LegalSuffix && j != k + FullSuffix
    ensures k != j + LegalSuffix && k != j + FullSuffix
    ensures j + LegalSuffix != k + LegalSuffix && j + FullSuffix != k + FullSuffix
    ensures j + LegalSuffix != k + FullSuffix && k + LegalSuffix != j + FullSuffix
  {
    if j + LegalSuffix == k + LegalSuffix { SuffixInjective(j, k, LegalSuffix); }
    if j + FullSuffix == k + FullSuffix { SuffixInjective(j, k, FullSuffix); }
    LegalIsNotFull(j, k);
    LegalIsNotFull(k, j);
  }

  lemma StepAddsNothingElse(info: map<string, Entry>, done: set<string>, k: string, c0: map<string, Entry>, c: map<string, Entry>)
    requires k in info && Switched(info[k])
    requires NothingElse(info, done, c0)
    requires c == c0[k + LegalSuffix := WithSuffix(info[k], LegalSuffix)][k + FullSuffix := WithSuffix(info[k], FullSuffix)] - {k}
    ensures NothingElse(info, done + {k}, c)
  {
    forall key | key in c
      ensures (key in info && !(key in done + {k} && Switched(info[key]))) ||
              exists j :: j in done + {k} && j in info && Switched(info[j]) && (key == j + LegalSuffix || key == j + FullSuffix)
    {
      if key != k + LegalSuffix && key != k + FullSuffix {
        assert key in c0;
      }
    }
  }

  /** The outcome does not depend on the order the keys are visited in:
      without clashes, at most one map has the expected shape. */
  lemma ExpansionOrderFree(info: map<string, Entry>, c1: map<string, Entry>, c2: map<string, Entry>)
    requires NoSuffixClash(info)
    requires ExpandedFrom(info, info.Keys, c1) && ExpandedFrom(info, info.Keys, c2)
    ensures c1 == c2
  {
    forall key | key in c1 ensures key in c2 && c2[key] == c1[key] {
      if key in info && !Switched(info[key]) {
      } else {
        var k :| k in info && Switched(info[k]) && (key == k + LegalSuffix || key == k + FullSuffix);
      }
    }
    forall key | key in c2 ensures key in c1 {
      if key in info && !Switched(info[key]) {
      } else {
        var k :| k in info && Switched(info[k]) && (key == k + LegalSuffix || key == k + FullSuffix);
      }
    }
  }
}
