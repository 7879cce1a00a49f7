/** Names of certificates: classifying the names of one log entry and uniting the
    names of entries for the same certificate, both under a cap
    (crates/collectors/src/sources/ct/mod.rs). Classification of a single name is
    a parameter. */
module CtNames {
  import opened Results

  const MAX_NAMES: nat := 100

  datatype NameRelation = Exact | Wildcard | Subdomain | Unrelated | Invalid
  {
    predicate IsRelated() { Exact? || Wildcard? || Subdomain? }
  }

  datatype CertificateName = CertificateName(raw: string, normalized: Option<string>, wildcard: bool, relation: NameRelation)

  type Classifier = string -> CertificateName

  predicate IsEmail(name: string)
  {
    '@' in name
  }

  /** The classified names of an entry, without e-mail identities. */
  function Classified(raw: seq<string>, classify: Classifier): (r: seq<CertificateName>)
  {
    if raw == [] then []
    else Classified(raw[..|raw| - 1], classify)
         + (if IsEmail(raw[|raw| - 1]) then [] else [classify(raw[|raw| - 1])])
  }

  const MAX_U32: nat := 0xFFFF_FFFF

  function Emails(raw: seq<string>): (n: nat)
  {
    if raw == [] then 0
    else
      var before := Emails(raw[..|raw| - 1]);
      if IsEmail(raw[|raw| - 1]) && before < MAX_U32 then before + 1 else before
  }

  predicate HasRaw(names: seq<CertificateName>, raw: string)
  {
    exists i :: 0 <= i < |names| && names[i].raw == raw
  }

  /** `known`, then each name whose raw text is new. */
  function Onto(known: seq<CertificateName>, s: seq<CertificateName>): (r: seq<CertificateName>)
    ensures known <= r
  {
    if s == [] then known
    else
      var before := Onto(known, s[..|s| - 1]);
      if HasRaw(before, s[|s| - 1].raw) then before else before + [s[|s| - 1]]
  }

  /** First occurrences, by raw text. */
  function Distinct(s: seq<CertificateName>): (r: seq<CertificateName>)
  {
    Onto([], s)
  }

  function Cap(s: seq<CertificateName>): (r: seq<CertificateName>)
    ensures |r| <= MAX_NAMES && r <= s
  {
    if |s| <= MAX_NAMES then s else s[..MAX_NAMES]
  }

  /** The first hundred distinct names. */
  function FirstNames(s: seq<CertificateName>): (r: seq<CertificateName>)
  {
    Cap(Distinct(s))
  }

  /** How many names beyond the cap classification counts. A name met again after
      it was refused counts again. */
  function Refused(s: seq<CertificateName>): (n: nat)
  {
    if s == [] then 0
    else
      var kept := FirstNames(s[..|s| - 1]);
      Refused(s[..|s| - 1]) + (if !HasRaw(kept, s[|s| - 1].raw) && |kept| >= MAX_NAMES then 1 else 0)
  }

  method ClassifyNames(raw: seq<string>, classify: Classifier)
    returns (names: seq<CertificateName>, emails: nat, dropped: nat)
    ensures names == FirstNames(Classified(raw, classify))
    ensures emails == Emails(raw)
    ensures dropped == Refused(Classified(raw, classify))
  {
    names, emails, dropped := [], 0, 0;
    for i := 0 to |raw|
      invariant names == FirstNames(Classified(raw[..i], classify))
      invariant emails == Emails(raw[..i])
      invariant dropped == Refused(Classified(raw[..i], classify))
    {
      assert raw[..i + 1][..i] == raw[..i];
      ghost var before := Classified(raw[..i], classify);
      assert Classified(raw[..i + 1], classify) == before + (if IsEmail(raw[i]) then [] else [classify(raw[i])]);
      assert before + [] == before;
      if IsEmail(raw[i]) {
        if emails < MAX_U32 { emails := emails + 1; }
        continue;
      }
      var classified := classify(raw[i]);
      assert (before + [classified])[..|before|] == before;
      CappedStep(before, classified);
      if HasRaw(names, classified.raw) { continue; }
      if |names| >= MAX_NAMES {
        dropped := dropped + 1;
        continue;
      }
      names := names + [classified];
    }
    assert raw[..|raw|] == raw;
  }

  lemma CappedStep(s: seq<CertificateName>, x: CertificateName)
    ensures FirstNames(s + [x])
         == if HasRaw(FirstNames(s), x.raw) || |FirstNames(s)| >= MAX_NAMES then FirstNames(s) else FirstNames(s) + [x]
  {
    assert (s + [x])[..|s|] == s;
    var d := Distinct(s);
    if |d| < MAX_NAMES {
      assert Cap(d) == d;
    } else {
      assert Cap(d) == d[..MAX_NAMES];
    }
  }

  // ------------------------------------------------------------------- merge

  /** Uniting the names of a further entry: only while the list is not full. */
  function MergeNames(existing: seq<CertificateName>, more: seq<CertificateName>): (r: seq<CertificateName>)
  {
    if more == [] then existing
    else
      var before := MergeNames(existing, more[..|more| - 1]);
      if |before| >= MAX_NAMES || HasRaw(before, more[|more| - 1].raw) then before else before + [more[|more| - 1]]
  }

  /** Every name met while the list is full counts as dropped, even one that is
      already listed. */
  function MergeDropped(existing: seq<CertificateName>, more: seq<CertificateName>): (n: nat)
  {
    if more == [] then 0
    else
      MergeDropped(existing, more[..|more| - 1])
      + (if |MergeNames(existing, more[..|more| - 1])| >= MAX_NAMES then 1 else 0)
  }

  method UniteNames(existing: seq<CertificateName>, more: seq<CertificateName>)
    returns (names: seq<CertificateName>, dropped: nat)
    ensures names == MergeNames(existing, more) && dropped == MergeDropped(existing, more)
  {
    names, dropped := existing, 0;
    for i := 0 to |more|
      invariant names == MergeNames(existing, more[..i]) && dropped == MergeDropped(existing, more[..i])
    {
      assert more[..i + 1][..i] == more[..i];
      if |names| >= MAX_NAMES {
        dropped := dropped + 1;
      } else if !HasRaw(names, more[i].raw) {
        names := names + [more[i]];
      }
    }
    assert more[..|more|] == more;
  }

  ghost predicate RawApart(s: seq<CertificateName>)
  {
    forall i, j :: 0 <= i < j < |s| ==> s[i].raw != s[j].raw
  }

  lemma {:induction false} OntoMeaning(known: seq<CertificateName>, s: seq<CertificateName>)
    requires RawApart(known)
    ensures RawApart(Onto(known, s))
    ensures forall raw :: HasRaw(Onto(known, s), raw) <==> HasRaw(known, raw) || HasRaw(s, raw)
  {
    if s != [] {
      var init, x := s[..|s| - 1], s[|s| - 1];
      OntoMeaning(known, init);
      forall raw ensures HasRaw(s, raw) <==> HasRaw(init, raw) || raw == x.raw {
        HasRawSnoc(init, x, raw);
        assert s == init + [x];
      }
      var before := Onto(known, init);
      if !HasRaw(before, x.raw) {
        forall raw ensures HasRaw(before + [x], raw) <==> HasRaw(before, raw) || raw == x.raw {
          HasRawSnoc(before, x, raw);
        }
      }
    }
  }

  lemma HasRawSnoc(s: seq<CertificateName>, x: CertificateName, raw: string)
    ensures HasRaw(s + [x], raw) <==> HasRaw(s, raw) || raw == x.raw
  {
    var t := s + [x];
    assert t[|s|] == x;
    if HasRaw(s, raw) {
      var i :| 0 <= i < |s| && s[i].raw == raw;
      assert t[i].raw == raw;
    }
  }

  /** The capped merge is the cap of the merge without cap. */
  lemma {:induction false} MergeIsCapped(existing: seq<CertificateName>, more: seq<CertificateName>)
    requires |existing| <= MAX_NAMES
    ensures MergeNames(existing, more) == Cap(Onto(existing, more))
  {
    if more != [] {
      MergeIsCapped(existing, more[..|more| - 1]);
    }
  }

  lemma {:induction false} OntoConcat(known: seq<CertificateName>, s: seq<CertificateName>, t: seq<CertificateName>)
    ensures Onto(Onto(known, s), t) == Onto(known, s + t)
  {
    if t == [] {
      assert s + t == s;
    } else {
      OntoConcat(known, s, t[..|t| - 1]);
      assert (s + t)[..|s + t| - 1] == s + t[..|t| - 1];
    }
  }

  /** Dropping repetitions first does not change what is new. */
  lemma {:induction false} OntoDistinct(known: seq<CertificateName>, s: seq<CertificateName>)
    requires RawApart(known)
    ensures Onto(known, s) == Onto(known, Distinct(s))
  {
    if s != [] {
      var init, x := s[..|s| - 1], s[|s| - 1];
      OntoDistinct(known, init);
      OntoMeaning(known, init);
      OntoMeaning([], init);
      var d := Distinct(init);
      if HasRaw(d, x.raw) {
        assert HasRaw(init, x.raw);
      } else {
        assert (d + [x])[..|d|] == d;
      }
    }
  }

  /** A list with distinct raw texts is no longer than any list that has them. */
  lemma {:induction false} NoLonger(s: seq<CertificateName>, t: seq<CertificateName>)
    requires RawApart(s) && forall raw :: HasRaw(s, raw) ==> HasRaw(t, raw)
    ensures |s| <= |t|
  {
    if s != [] {
      var x := s[0];
      assert HasRaw(s, x.raw);
      var k :| 0 <= k < |t| && t[k].raw == x.raw;
      var rest, without := s[1..], t[..k] + t[k + 1..];
      forall raw | HasRaw(rest, raw) ensures HasRaw(without, raw) {
        var i :| 0 <= i < |rest| && rest[i].raw == raw;
        assert s[i + 1].raw == raw && raw != x.raw;
        assert HasRaw(s, raw);
        var j :| 0 <= j < |t| && t[j].raw == raw;
        assert without[if j < k then j else j - 1].raw == raw;
      }
      NoLonger(rest, without);
    }
  }

  lemma {:induction false} OntoPrefix(known: seq<CertificateName>, s: seq<CertificateName>, n: nat)
    requires n <= |s|
    ensures Onto(known, s[..n]) <= Onto(known, s)
  {
    if n < |s| {
      OntoPrefix(known, s[..|s| - 1], n);
      assert s[..|s| - 1][..n] == s[..n];
    } else {
      assert s[..n] == s;
    }
  }

  lemma CapOfPrefix(a: seq<CertificateName>, b: seq<CertificateName>)
    requires a <= b && (|a| >= MAX_NAMES || a == b)
    ensures Cap(a) == Cap(b)
  {
  }

  /** Capping the names of each entry and capping again at every merge gives
      exactly the first hundred distinct names of all entries together. */
  lemma CapAndMerge(a: seq<CertificateName>, b: seq<CertificateName>)
    ensures MergeNames(FirstNames(a), FirstNames(b)) == FirstNames(a + b)
  {
    var A, B := Distinct(a), Distinct(b);
    OntoMeaning([], a);
    OntoMeaning([], b);
    MergeIsCapped(Cap(A), Cap(B));
    OntoConcat([], a, b);
    if |A| >= MAX_NAMES {
      CapOfPrefix(Cap(A), Onto(Cap(A), Cap(B)));
      CapOfPrefix(A, Onto(A, b));
    } else {
      OntoDistinct(A, b);
      OntoPrefix(A, B, |Cap(B)|);
      assert B[..|Cap(B)|] == Cap(B);
      if |B| > MAX_NAMES {
        OntoMeaning(A, Cap(B));
        assert RawApart(Cap(B));
        NoLonger(Cap(B), Onto(A, Cap(B)));
      }
      CapOfPrefix(Onto(A, Cap(B)), Onto(A, B));
    }
  }

  // ------------------------------------------------------------ the drop count

  /** Classification refuses nothing exactly when all distinct names are kept. */
  lemma {:induction false} RefusedNothing(s: seq<CertificateName>)
    ensures Refused(s) == 0 <==> |Distinct(s)| <= MAX_NAMES
  {
    if s != [] {
      var init, x := s[..|s| - 1], s[|s| - 1];
      RefusedNothing(init);
      var d := Distinct(init);
      if |d| == MAX_NAMES { assert Cap(d) == d; }
    }
  }

  lemma {:induction false} MergeGrows(existing: seq<CertificateName>, more: seq<CertificateName>, n: nat)
    requires n <= |more|
    ensures existing <= MergeNames(existing, more[..n]) <= MergeNames(existing, more)
  {
    if n < |more| {
      MergeGrows(existing, more[..|more| - 1], n);
      assert more[..|more| - 1][..n] == more[..n];
    } else {
      assert more[..n] == more;
      if more != [] {
        MergeGrows(existing, more[..|more| - 1], |more| - 1);
        assert more[..|more| - 1][..|more| - 1] == more[..|more| - 1];
      }
    }
  }

  /** A merge reports no drop exactly when the list was not yet full at its last
      name. */
  lemma {:induction false} MergeDropsNothing(existing: seq<CertificateName>, more: seq<CertificateName>)
    ensures MergeDropped(existing, more) == 0 <==>
              more == [] || |MergeNames(existing, more[..|more| - 1])| < MAX_NAMES
  {
    if more != [] {
      var init := more[..|more| - 1];
      MergeDropsNothing(existing, init);
      if init != [] {
        MergeGrows(existing, init, |init| - 1);
      }
    }
  }

  /** Without a reported drop no name was lost. */
  lemma {:induction false} NoDropNothingLost(existing: seq<CertificateName>, more: seq<CertificateName>)
    requires MergeDropped(existing, more) == 0
    ensures MergeNames(existing, more) == Onto(existing, more)
  {
    if more != [] {
      NoDropNothingLost(existing, more[..|more| - 1]);
    }
  }

  /** The other way round fails: merging names into a full list reports all of
      them as dropped, including those that are listed already. */
  lemma {:induction false} FullListCountsEverything(existing: seq<CertificateName>, more: seq<CertificateName>)
    requires |existing| == MAX_NAMES
    ensures MergeDropped(existing, more) == |more| && MergeNames(existing, more) == existing
  {
    if more != [] {
      FullListCountsEverything(existing, more[..|more| - 1]);
    }
  }

  /** So the count is honest exactly when it is zero or something was lost: for a
      merge that loses nothing, it is zero unless the list is full before the last
      name, and then it is not. */
  lemma HonestExactly(existing: seq<CertificateName>, more: seq<CertificateName>)
    requires RawApart(existing) && |existing| <= MAX_NAMES
    requires MergeNames(existing, more) == Onto(existing, more)
    ensures MergeDropped(existing, more) > 0 <==>
              more != [] && |Onto(existing, more[..|more| - 1])| >= MAX_NAMES
  {
    MergeDropsNothing(existing, more);
    if more != [] {
      MergeIsCapped(existing, more[..|more| - 1]);
    }
  }
}
