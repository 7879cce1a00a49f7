/** What the certificates built from log entries say, name by name and entry by entry. */
module CtFacts {
  import opened Results
  import opened Places
  import opened CtNames
  import opened CtCertificates

  // -------------------------------------------------------- names of one entry

  /** The names of an entry are classified one by one, in order; e-mail identities are
      left out. */
  lemma {:induction false} ClassifiedPlaces(raw: seq<string>, classify: Classifier) returns (places: seq<nat>)
    ensures |places| == |Classified(raw, classify)| && Ascends(places)
    ensures forall i: nat :: i in places <==> i < |raw| && '@' !in raw[i]
    ensures forall k :: 0 <= k < |places| ==> places[k] < |raw| && Classified(raw, classify)[k] == classify(raw[places[k]])
  {
    places := [];
    if raw != [] {
      var init := raw[..|raw| - 1];
      places := ClassifiedPlaces(init, classify);
      assert forall i: nat :: i < |init| ==> init[i] == raw[i];
      AppendPlace(places, |init|);
      if !IsEmail(raw[|init|]) { places := places + [|init|]; }
    }
  }

  ghost function EmailPlaces(raw: seq<string>): (r: set<nat>)
  {
    set i | 0 <= i < |raw| && '@' in raw[i]
  }

  function AtMost(n: nat, most: nat): (r: nat)
  {
    if n < most then n else most
  }

  /** E-mail identities are counted, up to the largest count. */
  lemma {:induction false} EmailsCounted(raw: seq<string>)
    ensures Emails(raw) == AtMost(|EmailPlaces(raw)|, MAX_U32)
  {
    if raw != [] {
      var init := raw[..|raw| - 1];
      EmailsCounted(init);
      assert EmailPlaces(raw) == EmailPlaces(init) + (if '@' in raw[|raw| - 1] then {|raw| - 1} else {});
    }
  }

  ghost function RawSet(s: seq<CertificateName>): (r: set<string>)
  {
    set i | 0 <= i < |s| :: s[i].raw
  }

  /** The name here is the first with its text, and fewer than so many texts stand
      before it. */
  ghost predicate AmongFirstNames(s: seq<CertificateName>, i: nat)
  {
    i < |s| && s[i].raw !in RawSet(s[..i]) && |RawSet(s[..i])| < MAX_NAMES
  }

  lemma RawSetStep(s: seq<CertificateName>, x: CertificateName)
    ensures RawSet(s + [x]) == RawSet(s) + {x.raw}
  {
    assert forall i :: 0 <= i < |s| ==> (s + [x])[i] == s[i];
    assert (s + [x])[|s|] == x;
  }

  lemma {:induction false} DistinctCounted(s: seq<CertificateName>)
    ensures forall raw :: HasRaw(Distinct(s), raw) <==> raw in RawSet(s)
    ensures |Distinct(s)| == |RawSet(s)|
  {
    if s != [] {
      var init, x := s[..|s| - 1], s[|s| - 1];
      assert s == init + [x];
      DistinctCounted(init);
      RawSetStep(init, x);
      DistinctStep(Distinct(init), x, RawSet(init));
      assert Distinct(s) == if HasRaw(Distinct(init), x.raw) then Distinct(init) else Distinct(init) + [x];
    }
  }

  lemma DistinctStep(d: seq<CertificateName>, x: CertificateName, raws: set<string>)
    requires |d| == |raws| && forall raw :: HasRaw(d, raw) <==> raw in raws
    ensures var next := if HasRaw(d, x.raw) then d else d + [x];
      |next| == |raws + {x.raw}| && forall raw :: HasRaw(next, raw) <==> raw in raws + {x.raw}
  {
    forall raw { HasRawSnoc(d, x, raw); }
    if HasRaw(d, x.raw) { assert raws + {x.raw} == raws; }
  }

  /** The first hundred distinct names are exactly those that come first with their
      text and have fewer than a hundred texts before them, in order. */
  lemma {:induction false} FirstPlaces(s: seq<CertificateName>) returns (places: seq<nat>)
    ensures |places| == |FirstNames(s)| && Ascends(places)
    ensures forall i: nat :: i in places <==> AmongFirstNames(s, i)
    ensures forall k :: 0 <= k < |places| ==> places[k] < |s| && FirstNames(s)[k] == s[places[k]]
  {
    places := [];
    if s != [] {
      var init, x := s[..|s| - 1], s[|s| - 1];
      assert s == init + [x];
      places := FirstPlaces(init);
      CappedStep(init, x);
      DistinctCounted(init);
      KeptHasRaw(init, x.raw);
      forall i: nat | i < |init| ensures AmongFirstNames(s, i) <==> AmongFirstNames(init, i) { assert s[..i] == init[..i]; }
      assert s[..|init|] == init;
      AppendPlace(places, |init|);
      if x.raw !in RawSet(init) && |RawSet(init)| < MAX_NAMES { places := places + [|init|]; }
    }
  }

  lemma KeptHasRaw(s: seq<CertificateName>, raw: string)
    ensures HasRaw(FirstNames(s), raw) ==> raw in RawSet(s)
    ensures |FirstNames(s)| < MAX_NAMES ==> (HasRaw(FirstNames(s), raw) <==> raw in RawSet(s))
    ensures |FirstNames(s)| == AtMost(|RawSet(s)|, MAX_NAMES)
  {
    DistinctCounted(s);
    if HasRaw(FirstNames(s), raw) { assert HasRaw(Distinct(s), raw); }
  }

  ghost function RefusedPlaces(s: seq<CertificateName>): (r: set<nat>)
  {
    set i | 0 <= i < |s| && !HasRaw(FirstNames(s), s[i].raw)
  }

  /** What classification counts as refused are the names whose text is not among the
      first hundred, each as often as it is listed. */
  lemma {:induction false} RefusedCounted(s: seq<CertificateName>)
    ensures Refused(s) == |RefusedPlaces(s)|
  {
    if s != [] {
      var init, x := s[..|s| - 1], s[|s| - 1];
      assert s == init + [x];
      RefusedCounted(init);
      RefusedStep(init, x);
    }
  }

  lemma RefusedStep(s: seq<CertificateName>, x: CertificateName)
    ensures |RefusedPlaces(s + [x])|
         == |RefusedPlaces(s)| + (if !HasRaw(FirstNames(s), x.raw) && |FirstNames(s)| >= MAX_NAMES then 1 else 0)
  {
    CappedStep(s, x);
    if HasRaw(FirstNames(s), x.raw) || |FirstNames(s)| >= MAX_NAMES {
      KeptPlaces(s, x);
    } else {
      KeptHasRaw(s, x.raw);
      RawSetStep(s, x);
      NoneRefused(s);
      NoneRefused(s + [x]);
    }
  }

  lemma KeptPlaces(s: seq<CertificateName>, x: CertificateName)
    requires FirstNames(s + [x]) == FirstNames(s)
    ensures RefusedPlaces(s + [x]) == RefusedPlaces(s) + (if HasRaw(FirstNames(s), x.raw) then {} else {|s|})
  {
    assert forall i :: 0 <= i < |s| ==> (s + [x])[i] == s[i];
    assert (s + [x])[|s|] == x;
  }

  lemma NoneRefused(s: seq<CertificateName>)
    requires |RawSet(s)| <= MAX_NAMES
    ensures RefusedPlaces(s) == {}
  {
    DistinctCounted(s);
    forall i | 0 <= i < |s| ensures HasRaw(FirstNames(s), s[i].raw) { assert s[i].raw in RawSet(s); }
  }

  /** Uniting counts as dropped every name met while the list is full. */
  ghost function FullPlaces(existing: seq<CertificateName>, more: seq<CertificateName>): (r: set<nat>)
  {
    set i | 0 <= i < |more| && |MergeNames(existing, more[..i])| >= MAX_NAMES
  }

  lemma {:induction false} UnitedCounted(existing: seq<CertificateName>, more: seq<CertificateName>)
    ensures MergeDropped(existing, more) == |FullPlaces(existing, more)|
  {
    if more != [] {
      var n := |more| - 1;
      UnitedCounted(existing, more[..n]);
      forall i: nat | i < n ensures more[..n][..i] == more[..i] { }
      assert FullPlaces(existing, more)
          == FullPlaces(existing, more[..n]) + (if |MergeNames(existing, more[..n])| >= MAX_NAMES then {n} else {});
    }
  }

  // -------------------------------------------------- entries of one certificate

  /** Two entries stand for one certificate when issuer and serial number say so, or,
      where one of these is missing in both, the identifier does. */
  lemma SameCertificateExactly(e: Entry, f: Entry)
    ensures SameCertificate(e, f) <==>
              || (e.issuer.Some? && e.serial.Some? && f.issuer == e.issuer && f.serial == e.serial)
              || ((e.issuer.None? || e.serial.None?) && (f.issuer.None? || f.serial.None?) && e.id.Some? && f.id == e.id)
  {
  }

  /** An entry of the certificate that entry `i` starts. */
  predicate InGroup(entries: seq<Entry>, i: nat, j: nat)
  {
    i < |entries| && j < |entries| && (j == i || (i < j && SameCertificate(entries[i], entries[j])))
  }

  /** A name, and no e-mail identity, of an entry of the certificate. */
  predicate Lists(entries: seq<Entry>, i: nat, p: Spot)
  {
    InGroup(entries, i, p.entry) && p.item < |entries[p.entry].names| && '@' !in entries[p.entry].names[p.item]
  }

  ghost predicate NamesAt(entries: seq<Entry>, classify: Classifier, spots: seq<Spot>, names: seq<CertificateName>)
  {
    && |spots| == |names|
    && forall k :: 0 <= k < |names| ==>
         spots[k].entry < |entries| && spots[k].item < |entries[spots[k].entry].names|
         && names[k] == classify(entries[spots[k].entry].names[spots[k].item])
  }

  /** The names of a group, entry by entry. */
  lemma {:induction false} GroupSpots(entries: seq<Entry>, i: nat, n: nat, classify: Classifier) returns (spots: seq<Spot>)
    requires i < |entries| && n <= |entries|
    ensures SpotsAscend(spots) && NamesAt(entries, classify, spots, GroupNames(entries, i, n, classify))
    ensures forall p :: p in spots <==> Lists(entries, i, p) && p.entry < n
  {
    spots := [];
    if n > 0 {
      spots := GroupSpots(entries, i, n - 1, classify);
      if Member(entries, i, n - 1) {
        var next := EntrySpots(entries, n - 1, classify);
        spots := JoinSpots(entries, i, n - 1, classify, spots, next);
      } else {
        OutsideGroup(entries, i, n - 1);
      }
    }
  }

  lemma OutsideGroup(entries: seq<Entry>, i: nat, j: nat)
    requires i < |entries| && j < |entries| && !Member(entries, i, j)
    ensures forall p :: Lists(entries, i, p) ==> p.entry != j
  {
  }

  lemma JoinSpots(entries: seq<Entry>, i: nat, j: nat, classify: Classifier, before: seq<Spot>, next: seq<Spot>) returns (spots: seq<Spot>)
    requires i < |entries| && j < |entries| && Member(entries, i, j) && SpotsAscend(before) && SpotsAscend(next)
    requires NamesAt(entries, classify, before, GroupNames(entries, i, j, classify))
    requires NamesAt(entries, classify, next, Classified(entries[j].names, classify))
    requires forall p :: p in before <==> Lists(entries, i, p) && p.entry < j
    requires forall p :: p in next <==> p.entry == j && p.item < |entries[j].names| && '@' !in entries[j].names[p.item]
    ensures SpotsAscend(spots) && NamesAt(entries, classify, spots, GroupNames(entries, i, j + 1, classify))
    ensures forall p :: p in spots <==> Lists(entries, i, p) && p.entry < j + 1
  {
    spots := before + next;
    AppendSpots(before, next, j);
    ConcatAt(entries, classify, before, GroupNames(entries, i, j, classify), next, Classified(entries[j].names, classify));
    assert InGroup(entries, i, j);
  }

  lemma ConcatAt(entries: seq<Entry>, classify: Classifier, a: seq<Spot>, s: seq<CertificateName>, b: seq<Spot>, t: seq<CertificateName>)
    requires NamesAt(entries, classify, a, s) && NamesAt(entries, classify, b, t)
    ensures NamesAt(entries, classify, a + b, s + t)
  {
  }

  lemma EntrySpots(entries: seq<Entry>, j: nat, classify: Classifier) returns (spots: seq<Spot>)
    requires j < |entries|
    ensures SpotsAscend(spots) && NamesAt(entries, classify, spots, Classified(entries[j].names, classify))
    ensures forall p :: p in spots <==> p.entry == j && p.item < |entries[j].names| && '@' !in entries[j].names[p.item]
  {
    var places := ClassifiedPlaces(entries[j].names, classify);
    spots := ItemsOf(j, places);
    ItemsOfMembers(j, places);
  }

  ghost function Group(entries: seq<Entry>, i: nat, n: nat): (r: set<nat>)
    requires n <= |entries|
  {
    set j | 0 <= j < n && InGroup(entries, i, j)
  }

  lemma {:induction false} GroupCounted(entries: seq<Entry>, i: nat, n: nat)
    requires i < |entries| && n <= |entries|
    ensures GroupSize(entries, i, n) == |Group(entries, i, n)|
  {
    if n > 0 {
      GroupCounted(entries, i, n - 1);
      assert Group(entries, i, n) == Group(entries, i, n - 1) + (if InGroup(entries, i, n - 1) then {n - 1} else {});
    }
  }

  /** The list has the first hundred distinct names that the entries of the certificate
      list, in order. */
  ghost predicate NamesGathered(entries: seq<Entry>, i: nat, classify: Classifier, names: seq<CertificateName>)
  {
    exists spots, listed ::
      && SpotsAscend(spots) && (forall p :: p in spots <==> Lists(entries, i, p))
      && NamesAt(entries, classify, spots, listed) && AreFirstNames(listed, names)
  }

  ghost predicate AreFirstNames(listed: seq<CertificateName>, names: seq<CertificateName>)
  {
    exists places: seq<nat> ::
      && Ascends(places) && (forall i: nat :: i in places <==> AmongFirstNames(listed, i))
      && |places| == |names| && forall k :: 0 <= k < |names| ==> places[k] < |listed| && names[k] == listed[places[k]]
  }

  /** The issues of the entry, then whether names were refused or are invalid. */
  ghost predicate IssuesTold(e: Entry, classify: Classifier, issues: seq<Issue>)
  {
    var listed := Classified(e.names, classify);
    var refused := |RawSet(listed)| > MAX_NAMES && TooManyNames !in e.issues;
    var invalid := exists i: nat :: AmongFirstNames(listed, i) && listed[i].relation.Invalid?;
    issues == e.issues + (if refused then [TooManyNames] else []) + (if invalid then [InvalidNames] else [])
  }

  /** The certificate says what the entries of the group of `i` say: the names of all of
      them, and everything else as its first entry has it. */
  ghost predicate Gathers(entries: seq<Entry>, i: nat, classify: Classifier, c: Certificate)
  {
    && i < |entries|
    && c.entryId == entries[i].id && c.serial == entries[i].serial && c.issuer == entries[i].issuer
    && c.commonName == entries[i].commonName && c.notBefore == entries[i].notBefore && c.notAfter == entries[i].notAfter
    && NamesGathered(entries, i, classify, c.names)
    && c.sourceEntries == |Group(entries, i, |entries|)|
    && c.omittedEmails == AtMost(|EmailPlaces(entries[i].names)|, MAX_U32)
    && IssuesTold(entries[i], classify, c.issues)
  }

  lemma GroupGathered(entries: seq<Entry>, i: nat, classify: Classifier)
    requires i < |entries|
    ensures NamesGathered(entries, i, classify, FirstNames(GroupNames(entries, i, |entries|, classify)))
  {
    var listed := GroupNames(entries, i, |entries|, classify);
    var spots := GroupSpots(entries, i, |entries|, classify);
    FirstAre(listed);
  }

  lemma FirstAre(listed: seq<CertificateName>)
    ensures AreFirstNames(listed, FirstNames(listed))
  {
    var places := FirstPlaces(listed);
  }

  lemma IssuesAre(e: Entry, classify: Classifier)
    ensures IssuesTold(e, classify, IssuesOf(e, classify))
  {
    var listed := Classified(e.names, classify);
    RefusedNothing(listed);
    DistinctCounted(listed);
    var places := FirstPlaces(listed);
    var names := FirstNames(listed);
    if i: nat :| AmongFirstNames(listed, i) && listed[i].relation.Invalid? {
      assert i in places;
      var k :| 0 <= k < |places| && places[k] == i;
      assert names[k].relation.Invalid?;
    }
    if SomeInvalid(names) {
      var k :| 0 <= k < |names| && names[k].relation.Invalid?;
      assert places[k] in places && AmongFirstNames(listed, places[k]);
    }
  }

  lemma CertificateGathers(entries: seq<Entry>, i: nat, classify: Classifier)
    requires i < |entries|
    ensures Gathers(entries, i, classify, CertificateOf(entries, i, |entries|, classify))
  {
    GroupGathered(entries, i, classify);
    GroupCounted(entries, i, |entries|);
    EmailsCounted(entries[i].names);
    IssuesAre(entries[i], classify);
  }

  /** Before the cut there is one certificate for each entry that no earlier one is for
      the same certificate as, in order, and it says what its group says. */
  lemma CertificatesBuilt(entries: seq<Entry>, classify: Classifier) returns (firsts: seq<nat>)
    ensures Ascends(firsts) && |firsts| == |Certificates(entries, |entries|, classify)|
    ensures forall i: nat :: i in firsts <==> i < |entries| && forall j :: 0 <= j < i ==> !SameCertificate(entries[j], entries[i])
    ensures forall p :: 0 <= p < |firsts| ==> Gathers(entries, firsts[p], classify, Certificates(entries, |entries|, classify)[p])
  {
    firsts := Leaders(entries, |entries|);
    forall p | 0 <= p < |firsts| ensures Gathers(entries, firsts[p], classify, Certificates(entries, |entries|, classify)[p]) {
      CertificateGathers(entries, firsts[p], classify);
    }
  }

  // ------------------------------------------------------------- what is dropped

  /** A name of an entry that is counted as dropped: refused when the entry is
      classified, or met when the list of its certificate is full. */
  datatype Drop = Refusal(entry: nat, name: nat) | Overflow(entry: nat, name: nat)

  ghost predicate IsDrop(entries: seq<Entry>, classify: Classifier, d: Drop)
  {
    && d.entry < |entries|
    && var listed := Classified(entries[d.entry].names, classify);
       match d
       case Refusal(_, k) => k in RefusedPlaces(listed)
       case Overflow(j, k) => !Leads(entries, j) && k in FullPlaces(NamesSoFar(entries, j, classify), FirstNames(listed))
  }

  /** The names of the certificate that entry `j` joins. */
  function NamesSoFar(entries: seq<Entry>, j: nat, classify: Classifier): (r: seq<CertificateName>)
    requires j < |entries|
  {
    FirstNames(GroupNames(entries, LeaderOf(entries, j), j, classify))
  }

  function MakeDrop(overflow: bool, j: nat, k: nat): (d: Drop)
  {
    if overflow then Overflow(j, k) else Refusal(j, k)
  }

  ghost function DropsIn(overflow: bool, j: nat, places: set<nat>): (r: set<Drop>)
  {
    set k | k in places :: MakeDrop(overflow, j, k)
  }

  lemma {:induction false} DropsInCounted(overflow: bool, j: nat, places: set<nat>)
    ensures |DropsIn(overflow, j, places)| == |places|
  {
    if k :| k in places {
      DropsInCounted(overflow, j, places - {k});
      assert DropsIn(overflow, j, places) == DropsIn(overflow, j, places - {k}) + {MakeDrop(overflow, j, k)};
    }
  }

  lemma DropsAt(entries: seq<Entry>, j: nat, classify: Classifier) returns (drops: set<Drop>)
    requires j < |entries|
    ensures |drops| == DroppedAt(entries, j, classify)
    ensures forall d :: d in drops <==> IsDrop(entries, classify, d) && d.entry == j
  {
    var listed := Classified(entries[j].names, classify);
    var refused := RefusedPlaces(listed);
    var over := if Leads(entries, j) then {} else FullPlaces(NamesSoFar(entries, j, classify), FirstNames(listed));
    RefusedCounted(listed);
    UnitedCounted(NamesSoFar(entries, j, classify), FirstNames(listed));
    DropsInCounted(false, j, refused);
    DropsInCounted(true, j, over);
    drops := DropsIn(false, j, refused) + DropsIn(true, j, over);
    forall d ensures d in drops <==> IsDrop(entries, classify, d) && d.entry == j {
      if IsDrop(entries, classify, d) && d.entry == j { assert d == MakeDrop(d.Overflow?, j, d.name); }
    }
  }

  /** These are the drops of the first `n` entries. */
  ghost predicate DropsOf(p: Drop -> bool, drops: set<Drop>, n: nat)
  {
    forall d :: d in drops <==> p(d) && d.entry < n
  }

  lemma DropsJoined(p: Drop -> bool, before: set<Drop>, here: set<Drop>, n: nat)
    requires DropsOf(p, before, n) && forall d :: d in here <==> p(d) && d.entry == n
    ensures |before + here| == |before| + |here| && DropsOf(p, before + here, n + 1)
  {
    assert before !! here;
  }

  ghost function DropTest(entries: seq<Entry>, classify: Classifier): (p: Drop -> bool)
  {
    d => IsDrop(entries, classify, d)
  }

  lemma NoneYet(entries: seq<Entry>, classify: Classifier)
    ensures NamesDropped(entries, 0, classify) == 0
  {
  }

  lemma {:induction false} DropsBelow(entries: seq<Entry>, n: nat, classify: Classifier) returns (drops: set<Drop>)
    requires n <= |entries|
    ensures |drops| == NamesDropped(entries, n, classify) && DropsOf(DropTest(entries, classify), drops, n)
  {
    drops := {};
    if n == 0 {
      NoneYet(entries, classify);
    } else {
      var before := DropsBelow(entries, n - 1, classify);
      var here := DropsAt(entries, n - 1, classify);
      NamesDroppedStep(entries, n - 1, classify);
      DropsJoined(DropTest(entries, classify), before, here, n - 1);
      drops := before + here;
    }
  }

  /** The reported count is the number of names refused or met when their certificate's
      list is full, over all entries. */
  lemma DropsCounted(entries: seq<Entry>, classify: Classifier) returns (drops: set<Drop>)
    ensures NamesDropped(entries, |entries|, classify) == |drops|
    ensures forall d :: d in drops <==> IsDrop(entries, classify, d)
  {
    drops := DropsBelow(entries, |entries|, classify);
    forall d ensures d in drops <==> IsDrop(entries, classify, d) { assert DropTest(entries, classify)(d) == IsDrop(entries, classify, d); }
  }
}
