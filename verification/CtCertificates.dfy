/** Deduplicating certificate transparency entries into certificates: a hash index
    into a growing list, then a stable sort and a cap
    (crates/collectors/src/sources/ct/mod.rs). */
module CtCertificates {
  import opened Results
  import opened Ordering
  import opened CtNames
  import opened Numerals

  const MAX_CERTIFICATES: nat := 200
  const MAX_RELATIONSHIPS: nat := 500

  datatype Issue = TooManyNames | InvalidNames | ParseIssue(text: string)

  datatype Entry = Entry(id: Option<nat>, issuer: Option<string>, commonName: Option<string>, names: seq<string>,
                         notBefore: Option<int>, notAfter: Option<int>, serial: Option<string>, issues: seq<Issue>)

  datatype Certificate = Certificate(entryId: Option<nat>, serial: Option<string>, issuer: Option<string>,
                                     commonName: Option<string>, notBefore: Option<int>, notAfter: Option<int>,
                                     names: seq<CertificateName>, omittedEmails: nat, sourceEntries: nat,
                                     issues: seq<Issue>)

  datatype Limits = Limits(certificatesDropped: nat, namesDropped: nat)

  // -------------------------------------------------------------------- keys

  /** Parsing keeps a serial number only if it is hexadecimal. */
  predicate HexSerial(e: Entry)
  {
    e.serial.Some? ==> forall i :: 0 <= i < |e.serial.value| ==> IsHex(e.serial.value[i])
  }

  /** What identifies a certificate. */
  datatype Identity = Issued(issuer: string, serial: string) | Logged(id: nat) | Unidentified

  function IdentityOf(e: Entry): (r: Identity)
  {
    if e.issuer.Some? && e.serial.Some? then Issued(e.issuer.value, e.serial.value)
    else if e.id.Some? then Logged(e.id.value)
    else Unidentified
  }

  const NUL: char := '\0'

  /** The text the hash index is keyed by. */
  function KeyText(e: Entry): (r: Option<string>)
  {
    match IdentityOf(e)
    case Issued(issuer, serial) => Some(issuer + [NUL] + serial)
    case Logged(id) => Some("id:" + Numeral(id, 10))
    case Unidentified => None
  }

  /** The last NUL of `issuer + NUL + serial` stands after the issuer. */
  lemma LastNul(issuer: string, serial: string)
    requires forall i :: 0 <= i < |serial| ==> IsHex(serial[i])
    ensures var t := issuer + [NUL] + serial;
            t[|issuer|] == NUL && forall k :: |issuer| < k < |t| ==> t[k] != NUL
  {
    var t := issuer + [NUL] + serial;
    forall k | |issuer| < k < |t| ensures t[k] != NUL {
      assert t[k] == serial[k - |issuer| - 1];
    }
  }

  lemma SplitAtNul(i1: string, s1: string, i2: string, s2: string)
    requires i1 + [NUL] + s1 == i2 + [NUL] + s2
    requires forall i :: 0 <= i < |s1| ==> IsHex(s1[i])
    requires forall i :: 0 <= i < |s2| ==> IsHex(s2[i])
    ensures i1 == i2 && s1 == s2
  {
    LastNul(i1, s1);
    LastNul(i2, s2);
    var t := i1 + [NUL] + s1;
    var u := i2 + [NUL] + s2;
    assert |i1| == |i2|;
    assert i1 == t[..|i1|] && i2 == u[..|i2|];
    assert s1 == t[|i1| + 1..] && s2 == u[|i2| + 1..];
  }

  lemma NoNulInLogged(id: nat, issuer: string, serial: string)
    ensures "id:" + Numeral(id, 10) != issuer + [NUL] + serial
  {
    var t, u := "id:" + Numeral(id, 10), issuer + [NUL] + serial;
    assert u[|issuer|] == NUL;
    forall k | 0 <= k < |t| ensures t[k] != NUL {
      if k >= 3 { assert t[k] == Numeral(id, 10)[k - 3]; }
    }
  }

  /** The key text stands for the identity, because serial numbers are
      hexadecimal: issuer texts may hold any character. */
  lemma KeyTextInjective(e: Entry, f: Entry)
    requires HexSerial(e) && HexSerial(f) && KeyText(e).Some?
    ensures KeyText(e) == KeyText(f) <==> IdentityOf(e) == IdentityOf(f)
  {
    match (IdentityOf(e), IdentityOf(f)) {
      case (Issued(i1, s1), Issued(i2, s2)) =>
        if KeyText(e) == KeyText(f) { SplitAtNul(i1, s1, i2, s2); }
      case (Logged(a), Logged(b)) =>
        if KeyText(e) == KeyText(f) {
          var t, u := "id:" + Numeral(a, 10), "id:" + Numeral(b, 10);
          assert Numeral(a, 10) == t[3..] && Numeral(b, 10) == u[3..];
          NumeralInjective(a, b, 10);
        }
      case (Issued(i1, s1), Logged(b)) => NoNulInLogged(b, i1, s1);
      case (Logged(a), Issued(i2, s2)) => NoNulInLogged(a, i2, s2);
      case (_, Unidentified) =>
    }
  }

  // ---------------------------------------------------------------- grouping

  /** Two entries for one certificate. */
  predicate SameCertificate(e: Entry, f: Entry)
  {
    !IdentityOf(e).Unidentified? && IdentityOf(e) == IdentityOf(f)
  }

  /** No earlier entry is for the same certificate. */
  predicate Leads(entries: seq<Entry>, i: nat)
    requires i < |entries|
  {
    forall j :: 0 <= j < i ==> !SameCertificate(entries[j], entries[i])
  }

  /** The first entries of all certificates among the first `n`, in source order. */
  function Leaders(entries: seq<Entry>, n: nat): (r: seq<nat>)
    requires n <= |entries|
    ensures forall p :: 0 <= p < |r| ==> r[p] < n && Leads(entries, r[p])
    ensures forall p, q :: 0 <= p < q < |r| ==> r[p] < r[q]
    ensures forall i :: 0 <= i < n && Leads(entries, i) ==> i in r
  {
    if n == 0 then [] else Leaders(entries, n - 1) + (if Leads(entries, n - 1) then [n - 1] else [])
  }

  predicate Member(entries: seq<Entry>, leader: nat, j: nat)
    requires leader < |entries| && j < |entries|
  {
    j == leader || (leader < j && SameCertificate(entries[leader], entries[j]))
  }

  /** Names of the group of `leader` among the first `n` entries, in source order. */
  function GroupNames(entries: seq<Entry>, leader: nat, n: nat, classify: Classifier): (r: seq<CertificateName>)
    requires leader < |entries| && n <= |entries|
  {
    if n == 0 then []
    else
      GroupNames(entries, leader, n - 1, classify)
      + (if Member(entries, leader, n - 1) then Classified(entries[n - 1].names, classify) else [])
  }

  function GroupSize(entries: seq<Entry>, leader: nat, n: nat): (r: nat)
    requires leader < |entries| && n <= |entries|
  {
    if n == 0 then 0 else GroupSize(entries, leader, n - 1) + (if Member(entries, leader, n - 1) then 1 else 0)
  }

  predicate SomeInvalid(names: seq<CertificateName>)
  {
    exists i :: 0 <= i < |names| && names[i].relation.Invalid?
  }

  function IssuesOf(e: Entry, classify: Classifier): (r: seq<Issue>)
  {
    var c := Classified(e.names, classify);
    var issues := if Refused(c) > 0 && TooManyNames !in e.issues then e.issues + [TooManyNames] else e.issues;
    if SomeInvalid(FirstNames(c)) then issues + [InvalidNames] else issues
  }

  /** The certificate of a group: the names of all its entries, everything else
      from its first entry. E-mail counts and issues of later entries are not
      carried over. */
  function CertificateOf(entries: seq<Entry>, leader: nat, n: nat, classify: Classifier): (r: Certificate)
    requires leader < |entries| && n <= |entries|
  {
    var e := entries[leader];
    Certificate(e.id, e.serial, e.issuer, e.commonName, e.notBefore, e.notAfter,
                FirstNames(GroupNames(entries, leader, n, classify)), Emails(e.names),
                GroupSize(entries, leader, n), IssuesOf(e, classify))
  }

  function Certificates(entries: seq<Entry>, n: nat, classify: Classifier): (r: seq<Certificate>)
    requires n <= |entries|
    ensures |r| == |Leaders(entries, n)|
  {
    var leaders := Leaders(entries, n);
    seq(|leaders|, p requires 0 <= p < |leaders| => CertificateOf(entries, leaders[p], n, classify))
  }

  /** What is counted as dropped at entry `j`. */
  function DroppedAt(entries: seq<Entry>, j: nat, classify: Classifier): (r: nat)
    requires j < |entries|
  {
    var c := Classified(entries[j].names, classify);
    Refused(c)
    + (if Leads(entries, j) then 0
       else MergeDropped(FirstNames(GroupNames(entries, LeaderOf(entries, j), j, classify)), FirstNames(c)))
  }

  function NamesDropped(entries: seq<Entry>, n: nat, classify: Classifier): (r: nat)
    requires n <= |entries|
  {
    Sum(DropsUpTo(entries, n, classify))
  }

  function DropsUpTo(entries: seq<Entry>, n: nat, classify: Classifier): (r: seq<nat>)
    requires n <= |entries|
  {
    seq(n, j requires 0 <= j < n => DroppedAt(entries, j, classify))
  }

  function Sum(ns: seq<nat>): (r: nat)
  {
    if ns == [] then 0 else Sum(ns[..|ns| - 1]) + ns[|ns| - 1]
  }

  lemma NamesDroppedStep(entries: seq<Entry>, n: nat, classify: Classifier)
    requires n < |entries|
    ensures NamesDropped(entries, n + 1, classify) == NamesDropped(entries, n, classify) + DroppedAt(entries, n, classify)
  {
    assert DropsUpTo(entries, n + 1, classify)[..n] == DropsUpTo(entries, n, classify);
  }

  /** The first entry for the same certificate, searched from `i` on. */
  function LeaderFrom(entries: seq<Entry>, j: nat, i: nat): (r: nat)
    requires i <= j < |entries|
    requires forall k :: 0 <= k < i ==> !SameCertificate(entries[k], entries[j])
    ensures r <= j && Leads(entries, r) && Member(entries, r, j)
    decreases j - i
  {
    if i == j then j
    else if SameCertificate(entries[i], entries[j]) then
      assert forall k :: 0 <= k < i && SameCertificate(entries[k], entries[i]) ==> SameCertificate(entries[k], entries[j]);
      i
    else LeaderFrom(entries, j, i + 1)
  }

  function LeaderOf(entries: seq<Entry>, j: nat): (r: nat)
    requires j < |entries|
    ensures r <= j && Leads(entries, r) && Member(entries, r, j)
  {
    LeaderFrom(entries, j, 0)
  }

  /** Every entry belongs to the group of exactly one leader. */
  lemma OneLeader(entries: seq<Entry>, leader: nat, j: nat)
    requires leader < |entries| && j < |entries| && Leads(entries, leader) && Member(entries, leader, j)
    ensures leader == LeaderOf(entries, j)
  {
  }

  // --------------------------------------------------------------- the loop

  /** An entry for a new certificate starts a group; another one joins its group
      and touches no other. */
  lemma GroupStep(entries: seq<Entry>, leader: nat, n: nat, classify: Classifier)
    requires leader < n < |entries| && Leads(entries, leader)
    ensures var joins := !Leads(entries, n) && leader == LeaderOf(entries, n);
      && GroupNames(entries, leader, n + 1, classify)
         == GroupNames(entries, leader, n, classify) + (if joins then Classified(entries[n].names, classify) else [])
      && GroupSize(entries, leader, n + 1) == GroupSize(entries, leader, n) + (if joins then 1 else 0)
  {
    if Member(entries, leader, n) {
      OneLeader(entries, leader, n);
    }
  }

  lemma {:induction false} EmptyBefore(entries: seq<Entry>, leader: nat, n: nat, classify: Classifier)
    requires n <= leader < |entries|
    ensures GroupNames(entries, leader, n, classify) == [] && GroupSize(entries, leader, n) == 0
  {
    if n > 0 { EmptyBefore(entries, leader, n - 1, classify); }
  }

  /** Key texts of the leaders, by position. */
  function LeaderKeys(entries: seq<Entry>, n: nat): (r: seq<Option<string>>)
    requires n <= |entries|
  {
    var leaders := Leaders(entries, n);
    seq(|leaders|, p requires 0 <= p < |leaders| => KeyText(entries[leaders[p]]))
  }

  /** The hash index points every key at its position. */
  ghost predicate IndexOf(keys: seq<Option<string>>, index: map<string, nat>)
  {
    && (forall k :: k in index ==> index[k] < |keys| && keys[index[k]] == Some(k))
    && (forall p :: 0 <= p < |keys| && keys[p].Some? ==> keys[p].value in index && index[keys[p].value] == p)
  }

  lemma IndexAppend(keys: seq<Option<string>>, index: map<string, nat>, key: Option<string>)
    requires IndexOf(keys, index) && (key.Some? ==> key.value !in index)
    ensures IndexOf(keys + [key], if key.Some? then index[key.value := |keys|] else index)
  {
    var next := keys + [key];
    assert next[|keys|] == key;
    forall p | 0 <= p < |keys| ensures next[p] == keys[p] {
    }
  }

  /** The hash index points every key met so far at its certificate. */
  ghost predicate Indexed(entries: seq<Entry>, n: nat, index: map<string, nat>)
    requires n <= |entries|
  {
    IndexOf(LeaderKeys(entries, n), index)
  }

  ghost predicate HexSerials(entries: seq<Entry>)
  {
    forall i :: 0 <= i < |entries| ==> HexSerial(entries[i])
  }

  /** Looking up the key text finds the position of the leader of the entry. */
  lemma IndexFinds(entries: seq<Entry>, n: nat, index: map<string, nat>)
    requires n < |entries| && HexSerials(entries) && Indexed(entries, n, index)
    ensures var key := KeyText(entries[n]);
      && (key.Some? && key.value in index <==> !Leads(entries, n))
      && (key.Some? && key.value in index ==>
            index[key.value] < |Leaders(entries, n)| && Leaders(entries, n)[index[key.value]] == LeaderOf(entries, n))
  {
    var key, leaders := KeyText(entries[n]), Leaders(entries, n);
    assert forall p :: 0 <= p < |leaders| ==> LeaderKeys(entries, n)[p] == KeyText(entries[leaders[p]]);
    if key.Some? && key.value in index {
      var i := leaders[index[key.value]];
      KeyTextInjective(entries[i], entries[n]);
      assert SameCertificate(entries[i], entries[n]);
      OneLeader(entries, i, n);
    }
    if !Leads(entries, n) {
      var i := LeaderOf(entries, n);
      KeyTextInjective(entries[i], entries[n]);
      assert i in leaders;
      var p :| 0 <= p < |leaders| && leaders[p] == i;
    }
  }

  lemma IndexStays(entries: seq<Entry>, n: nat, index: map<string, nat>)
    requires n < |entries| && Indexed(entries, n, index) && !Leads(entries, n)
    ensures Indexed(entries, n + 1, index)
  {
    assert Leaders(entries, n + 1) == Leaders(entries, n) + [] == Leaders(entries, n);
    assert LeaderKeys(entries, n + 1) == LeaderKeys(entries, n);
  }

  lemma KeysGrow(entries: seq<Entry>, n: nat)
    requires n < |entries| && Leads(entries, n)
    ensures LeaderKeys(entries, n + 1) == LeaderKeys(entries, n) + [KeyText(entries[n])]
    ensures |LeaderKeys(entries, n)| == |Leaders(entries, n)|
  {
    assert Leaders(entries, n + 1) == Leaders(entries, n) + [n];
  }

  lemma IndexGrows(entries: seq<Entry>, n: nat, index: map<string, nat>)
    requires n < |entries| && HexSerials(entries) && Indexed(entries, n, index) && Leads(entries, n)
    ensures var key := KeyText(entries[n]);
            Indexed(entries, n + 1, if key.Some? then index[key.value := |Leaders(entries, n)|] else index)
  {
    IndexFinds(entries, n, index);
    KeysGrow(entries, n);
    IndexAppend(LeaderKeys(entries, n), index, KeyText(entries[n]));
  }

  lemma CertificateUnchanged(entries: seq<Entry>, leader: nat, n: nat, classify: Classifier)
    requires leader < n < |entries| && Leads(entries, leader)
    requires Leads(entries, n) || leader != LeaderOf(entries, n)
    ensures CertificateOf(entries, leader, n + 1, classify) == CertificateOf(entries, leader, n, classify)
  {
    GroupStep(entries, leader, n, classify);
    var g := GroupNames(entries, leader, n, classify);
    assert g + [] == g;
  }

  lemma CertificateJoined(entries: seq<Entry>, n: nat, classify: Classifier)
    requires n < |entries| && !Leads(entries, n)
    ensures var i := LeaderOf(entries, n);
      var before := CertificateOf(entries, i, n, classify);
      CertificateOf(entries, i, n + 1, classify) == before.(
        names := MergeNames(before.names, FirstNames(Classified(entries[n].names, classify))),
        sourceEntries := before.sourceEntries + 1)
  {
    var i := LeaderOf(entries, n);
    GroupStep(entries, i, n, classify);
    CapAndMerge(GroupNames(entries, i, n, classify), Classified(entries[n].names, classify));
  }

  /** An entry for a new certificate is appended to the list. */
  lemma CertificateAppended(entries: seq<Entry>, n: nat, classify: Classifier)
    requires n < |entries| && Leads(entries, n)
    ensures Certificates(entries, n + 1, classify)
         == Certificates(entries, n, classify) + [CertificateOf(entries, n, n + 1, classify)]
  {
    var leaders := Leaders(entries, n);
    assert Leaders(entries, n + 1) == leaders + [n];
    forall p | 0 <= p < |leaders|
      ensures Certificates(entries, n + 1, classify)[p] == Certificates(entries, n, classify)[p]
    {
      CertificateUnchanged(entries, leaders[p], n, classify);
    }
  }

  /** Any other entry changes the certificate at its leader's position only. */
  lemma CertificateUpdated(entries: seq<Entry>, n: nat, classify: Classifier, p: nat)
    requires n < |entries| && !Leads(entries, n)
    requires p < |Leaders(entries, n)| && Leaders(entries, n)[p] == LeaderOf(entries, n)
    ensures Certificates(entries, n + 1, classify)
         == Certificates(entries, n, classify)[p := CertificateOf(entries, LeaderOf(entries, n), n + 1, classify)]
  {
    var leaders := Leaders(entries, n);
    assert Leaders(entries, n + 1) == leaders + [] == leaders;
    forall q | 0 <= q < |leaders| && q != p
      ensures Certificates(entries, n + 1, classify)[q] == Certificates(entries, n, classify)[q]
    {
      assert leaders[q] != leaders[p];
      CertificateUnchanged(entries, leaders[q], n, classify);
    }
  }

  /** A new group has the names of its entry alone. */
  lemma NewGroup(entries: seq<Entry>, n: nat, classify: Classifier)
    requires n < |entries|
    ensures CertificateOf(entries, n, n + 1, classify).names == FirstNames(Classified(entries[n].names, classify))
    ensures GroupSize(entries, n, n + 1) == 1
  {
    EmptyBefore(entries, n, n, classify);
    var c := Classified(entries[n].names, classify);
    assert [] + c == c;
  }

  /** Stable key of the final order: newest first, undated last. */
  function NewestFirst(c: Certificate): (k: Key)
  {
    match c.notBefore case Some(t) => [[0, -t]] case None => [[1]]
  }

  function Kept(all: seq<Certificate>): (r: seq<Certificate>)
  {
    var sorted := SortBy(all, NewestFirst);
    if |sorted| > MAX_CERTIFICATES then sorted[..MAX_CERTIFICATES] else sorted
  }

  /** Starts a certificate from its first entry. */
  method StartCertificate(entry: Entry, names: seq<CertificateName>, emails: nat, dropped: nat, classify: Classifier)
    returns (c: Certificate)
    requires names == FirstNames(Classified(entry.names, classify)) && emails == Emails(entry.names)
    requires dropped == Refused(Classified(entry.names, classify))
    ensures c == Certificate(entry.id, entry.serial, entry.issuer, entry.commonName, entry.notBefore, entry.notAfter,
                             names, emails, 1, IssuesOf(entry, classify))
  {
    var issues := entry.issues;
    if dropped > 0 && TooManyNames !in issues { issues := issues + [TooManyNames]; }
    if SomeInvalid(names) { issues := issues + [InvalidNames]; }
    c := Certificate(entry.id, entry.serial, entry.issuer, entry.commonName,
                     entry.notBefore, entry.notAfter, names, emails, 1, issues);
  }

  /** The text `BuildCertificates` looks an entry up by. */
  method LookupKey(entry: Entry) returns (key: Option<string>)
    ensures key == KeyText(entry)
  {
    key := if entry.issuer.Some? && entry.serial.Some? then Some(entry.issuer.value + [NUL] + entry.serial.value)
           else if entry.id.Some? then Some("id:" + Numeral(entry.id.value, 10))
           else None;
  }

  lemma CertificateHere(entries: seq<Entry>, n: nat, classify: Classifier, p: nat)
    requires n <= |entries| && p < |Leaders(entries, n)|
    ensures Certificates(entries, n, classify)[p] == CertificateOf(entries, Leaders(entries, n)[p], n, classify)
  {
  }

  lemma JoinedNames(entries: seq<Entry>, n: nat, classify: Classifier, names: seq<CertificateName>, c: Certificate)
    requires n < |entries| && !Leads(entries, n) && c == CertificateOf(entries, LeaderOf(entries, n), n, classify)
    requires names == FirstNames(Classified(entries[n].names, classify))
    ensures c.names == FirstNames(GroupNames(entries, LeaderOf(entries, n), n, classify))
    ensures CertificateOf(entries, LeaderOf(entries, n), n + 1, classify)
         == c.(names := MergeNames(c.names, names), sourceEntries := c.sourceEntries + 1)
  {
    CertificateJoined(entries, n, classify);
  }

  /** The entry joins the certificate at `position`. */
  method JoinCertificate(entries: seq<Entry>, n: nat, classify: Classifier, before: seq<Certificate>,
                         position: nat, names: seq<CertificateName>)
    returns (certificates: seq<Certificate>, dropped: nat)
    requires n < |entries| && !Leads(entries, n) && before == Certificates(entries, n, classify)
    requires position < |before| && Leaders(entries, n)[position] == LeaderOf(entries, n)
    requires names == FirstNames(Classified(entries[n].names, classify))
    ensures certificates == Certificates(entries, n + 1, classify)
    ensures dropped == MergeDropped(FirstNames(GroupNames(entries, LeaderOf(entries, n), n, classify)), names)
  {
    var existing := before[position];
    CertificateHere(entries, n, classify, position);
    JoinedNames(entries, n, classify, names, existing);
    CertificateUpdated(entries, n, classify, position);
    var united;
    united, dropped := UniteNames(existing.names, names);
    certificates := before[position := existing.(names := united, sourceEntries := existing.sourceEntries + 1)];
  }

  /** One pass of the loop: the entry joins the certificate the index finds for it,
      or starts a new one. */
  method AbsorbEntry(entries: seq<Entry>, n: nat, classify: Classifier, before: seq<Certificate>, known: map<string, nat>)
    returns (certificates: seq<Certificate>, index: map<string, nat>, namesDropped: nat)
    requires n < |entries| && HexSerials(entries)
    requires before == Certificates(entries, n, classify) && Indexed(entries, n, known)
    ensures certificates == Certificates(entries, n + 1, classify) && Indexed(entries, n + 1, index)
    ensures namesDropped == DroppedAt(entries, n, classify)
  {
    var entry := entries[n];
    var key := LookupKey(entry);
    var names, emails, dropped := ClassifyNames(entry.names, classify);
    IndexFinds(entries, n, known);
    if key.Some? && key.value in known {
      var more;
      certificates, more := JoinCertificate(entries, n, classify, before, known[key.value], names);
      index, namesDropped := known, dropped + more;
      IndexStays(entries, n, known);
    } else {
      var c := StartCertificate(entry, names, emails, dropped, classify);
      NewGroup(entries, n, classify);
      CertificateAppended(entries, n, classify);
      certificates, namesDropped := before + [c], dropped;
      IndexGrows(entries, n, known);
      index := if key.Some? then known[key.value := |before|] else known;
    }
  }

  /** The whole pass over the log entries: one certificate an identity, in the final
      order, at most so many, with counts of what was left out. */
  method BuildCertificates(entries: seq<Entry>, classify: Classifier)
    returns (certificates: seq<Certificate>, limits: Limits)
    requires HexSerials(entries)
    ensures var all := Certificates(entries, |entries|, classify);
      && certificates == Kept(all)
      && limits.certificatesDropped == |all| - |certificates|
      && limits.namesDropped == NamesDropped(entries, |entries|, classify)
  {
    var namesDropped, certificatesDropped := 0, 0;
    certificates := [];
    var index: map<string, nat> := map[];
    for n := 0 to |entries|
      invariant certificates == Certificates(entries, n, classify)
      invariant Indexed(entries, n, index)
      invariant namesDropped == NamesDropped(entries, n, classify)
    {
      var dropped;
      certificates, index, dropped := AbsorbEntry(entries, n, classify, certificates, index);
      NamesDroppedStep(entries, n, classify);
      namesDropped := namesDropped + dropped;
    }
    SortBySorts(certificates, NewestFirst);
    certificates := SortBy(certificates, NewestFirst);
    if |certificates| > MAX_CERTIFICATES {
      certificatesDropped := |certificates| - MAX_CERTIFICATES;
      certificates := certificates[..MAX_CERTIFICATES];
    }
    limits := Limits(certificatesDropped, namesDropped);
  }

  // ------------------------------------------------------------ main results

  function SumEntries(cs: seq<Certificate>): (n: nat)
  {
    if cs == [] then 0 else SumEntries(cs[..|cs| - 1]) + cs[|cs| - 1].sourceEntries
  }

  lemma {:induction false} SumUpdate(cs: seq<Certificate>, p: nat, c: Certificate)
    requires p < |cs|
    ensures SumEntries(cs[p := c]) == SumEntries(cs) - cs[p].sourceEntries + c.sourceEntries
  {
    var init := cs[..|cs| - 1];
    if p < |init| {
      assert cs[p := c][..|cs| - 1] == init[p := c];
      SumUpdate(init, p, c);
    } else {
      assert cs[p := c][..|cs| - 1] == init;
    }
  }

  /** Log entries the certificates say they stand for. */
  function EntriesAccounted(entries: seq<Entry>, n: nat, classify: Classifier): (r: nat)
    requires n <= |entries|
  {
    SumEntries(Certificates(entries, n, classify))
  }

  lemma SumStep(entries: seq<Entry>, n: nat, classify: Classifier)
    requires n < |entries|
    ensures EntriesAccounted(entries, n + 1, classify) == EntriesAccounted(entries, n, classify) + 1
  {
    var before := Certificates(entries, n, classify);
    if Leads(entries, n) {
      CertificateAppended(entries, n, classify);
      NewGroup(entries, n, classify);
      var c := CertificateOf(entries, n, n + 1, classify);
      assert (before + [c])[..|before|] == before;
    } else {
      var leaders := Leaders(entries, n);
      assert LeaderOf(entries, n) in leaders;
      var p :| 0 <= p < |leaders| && leaders[p] == LeaderOf(entries, n);
      CertificateJoined(entries, n, classify);
      CertificateUpdated(entries, n, classify, p);
      SumUpdate(before, p, CertificateOf(entries, leaders[p], n + 1, classify));
    }
  }

  lemma NoEntries(entries: seq<Entry>, classify: Classifier)
    ensures EntriesAccounted(entries, 0, classify) == 0
  {
    assert |Certificates(entries, 0, classify)| == |Leaders(entries, 0)| == 0;
  }

  lemma {:induction false} CountUp(values: seq<int>)
    requires values != [] && values[0] == 0
    requires forall k :: 0 <= k < |values| - 1 ==> values[k + 1] == values[k] + 1
    ensures values[|values| - 1] == |values| - 1
  {
    if |values| > 1 { CountUp(values[..|values| - 1]); }
  }

  /** What the certificates account for after each entry. */
  function Tally(entries: seq<Entry>, classify: Classifier): (r: seq<int>)
  {
    seq(|entries| + 1, k requires 0 <= k <= |entries| => EntriesAccounted(entries, k, classify))
  }

  lemma TallyStep(entries: seq<Entry>, classify: Classifier, k: nat)
    requires k < |entries|
    ensures Tally(entries, classify)[k + 1] == Tally(entries, classify)[k] + 1
  {
    SumStep(entries, k, classify);
  }

  lemma LastTally(entries: seq<Entry>, classify: Classifier)
    ensures Tally(entries, classify)[|entries|] == SumEntries(Certificates(entries, |entries|, classify))
  {
  }

  /** No entry is lost or counted twice: before the cut, the certificates account
      for all entries. */
  lemma EntriesConserved(entries: seq<Entry>, classify: Classifier)
    ensures SumEntries(Certificates(entries, |entries|, classify)) == |entries|
  {
    var tally := Tally(entries, classify);
    NoEntries(entries, classify);
    forall k | 0 <= k < |entries| ensures tally[k + 1] == tally[k] + 1 { TallyStep(entries, classify, k); }
    CountUp(tally);
    LastTally(entries, classify);
  }

  /** Every entry is in exactly one group. */
  lemma GroupOfEntry(entries: seq<Entry>, j: nat) returns (p: nat)
    requires j < |entries|
    ensures var leaders := Leaders(entries, |entries|);
      && p < |leaders| && Member(entries, leaders[p], j)
      && forall q :: 0 <= q < |leaders| && Member(entries, leaders[q], j) ==> q == p
  {
    var leaders := Leaders(entries, |entries|);
    assert LeaderOf(entries, j) in leaders;
    p :| 0 <= p < |leaders| && leaders[p] == LeaderOf(entries, j);
    forall q | 0 <= q < |leaders| && Member(entries, leaders[q], j) ensures q == p {
      OneLeader(entries, leaders[q], j);
    }
  }

  /** Entries are in one group exactly when they are for the same certificate, or
      are the same entry. */
  lemma GroupsAreIdentities(entries: seq<Entry>, i: nat, j: nat)
    requires i < |entries| && j < |entries|
    ensures LeaderOf(entries, i) == LeaderOf(entries, j) <==> i == j || SameCertificate(entries[i], entries[j])
  {
    if SameCertificate(entries[i], entries[j]) {
      var a, b := LeaderOf(entries, i), LeaderOf(entries, j);
      assert a < b ==> SameCertificate(entries[a], entries[b]);
      assert b < a ==> SameCertificate(entries[b], entries[a]);
    }
  }

  lemma NewestFirstMeaning(c: Certificate, d: Certificate)
    ensures KeyLe(NewestFirst(c), NewestFirst(d)) <==>
              d.notBefore.None? || (c.notBefore.Some? && c.notBefore.value >= d.notBefore.value)
  {
    var x, y := NewestFirst(c), NewestFirst(d);
    assert x[1..] == [] && y[1..] == [];
    assert LexLe(x[0][1..], y[0][1..]) <==> (x[0][1..] == [] || (y[0][1..] != [] && x[0][1] <= y[0][1])) by {
      if x[0][1..] != [] && y[0][1..] != [] { assert x[0][1..][1..] == []; }
    }
    if x[0] == y[0] { assert x[0][0] == y[0][0]; assert c.notBefore.Some? ==> x[0][1] == y[0][1]; }
  }

  /** `c` is at least as recent as `d`; undated certificates come last. */
  predicate NotOlder(c: Certificate, d: Certificate)
  {
    d.notBefore.None? || (c.notBefore.Some? && c.notBefore.value >= d.notBefore.value)
  }

  /** The list kept is the newest-first order of all certificates, with source
      order among equal dates, cut to two hundred; nothing cut off is more recent
      than anything kept. */
  lemma KeptAreNewest(all: seq<Certificate>)
    ensures var sorted := SortBy(all, NewestFirst);
      && multiset(sorted) == multiset(all) && Kept(all) <= sorted
      && |Kept(all)| == (if |all| <= MAX_CERTIFICATES then |all| else MAX_CERTIFICATES)
      && (forall i, j :: 0 <= i < j < |sorted| ==> NotOlder(sorted[i], sorted[j]))
      && (forall k: Key :: WithKey(sorted, NewestFirst, k) == WithKey(all, NewestFirst, k))
  {
    SortBySorts(all, NewestFirst);
    var sorted := SortBy(all, NewestFirst);
    forall i, j | 0 <= i < j < |sorted| ensures NotOlder(sorted[i], sorted[j]) {
      NewestFirstMeaning(sorted[i], sorted[j]);
    }
    forall k: Key ensures WithKey(sorted, NewestFirst, k) == WithKey(all, NewestFirst, k) {
      SortByStable(all, NewestFirst, k);
    }
  }

  /** The cap left none of the distinct names out. */
  predicate Whole(names: seq<CertificateName>)
  {
    FirstNames(names) == Distinct(names)
  }

  lemma FirstEntryWhole(entries: seq<Entry>, leader: nat, classify: Classifier)
    requires leader < |entries| && Leads(entries, leader) && DroppedAt(entries, leader, classify) == 0
    ensures Whole(GroupNames(entries, leader, leader + 1, classify))
  {
    var c := Classified(entries[leader].names, classify);
    RefusedNothing(c);
    EmptyBefore(entries, leader, leader, classify);
    assert [] + c == c;
  }

  lemma NextEntryWhole(entries: seq<Entry>, leader: nat, n: nat, classify: Classifier)
    requires leader < n < |entries| && Leads(entries, leader) && DroppedAt(entries, n, classify) == 0
    requires Whole(GroupNames(entries, leader, n, classify))
    ensures Whole(GroupNames(entries, leader, n + 1, classify))
  {
    var g, c := GroupNames(entries, leader, n, classify), Classified(entries[n].names, classify);
    GroupStep(entries, leader, n, classify);
    if !Leads(entries, n) && leader == LeaderOf(entries, n) {
      RefusedNothing(c);
      MergedWhole(g, c);
    } else {
      assert g + [] == g;
    }
  }

  lemma {:induction false} SumZero(ns: seq<nat>)
    requires Sum(ns) == 0
    ensures forall j :: 0 <= j < |ns| ==> ns[j] == 0
  {
    if ns != [] {
      SumZero(ns[..|ns| - 1]);
      assert ns == ns[..|ns| - 1] + [ns[|ns| - 1]];
    }
  }

  lemma NoneDropped(entries: seq<Entry>, n: nat, j: nat, classify: Classifier)
    requires j < n <= |entries| && NamesDropped(entries, n, classify) == 0
    ensures DroppedAt(entries, j, classify) == 0
  {
    SumZero(DropsUpTo(entries, n, classify));
    assert DropsUpTo(entries, n, classify)[j] == DroppedAt(entries, j, classify);
  }

  lemma FirstWholeToo(entries: seq<Entry>, leader: nat, n: nat, classify: Classifier)
    requires leader < n <= |entries| && Leads(entries, leader) && NamesDropped(entries, n, classify) == 0
    ensures Whole(GroupNames(entries, leader, leader + 1, classify))
  {
    NoneDropped(entries, n, leader, classify);
    FirstEntryWhole(entries, leader, classify);
  }

  lemma NextWholeToo(entries: seq<Entry>, leader: nat, n: nat, classify: Classifier, m: nat)
    requires leader < m < n <= |entries| && Leads(entries, leader) && NamesDropped(entries, n, classify) == 0
    requires Whole(GroupNames(entries, leader, m, classify))
    ensures Whole(GroupNames(entries, leader, m + 1, classify))
  {
    NoneDropped(entries, n, m, classify);
    NextEntryWhole(entries, leader, m, classify);
  }

  lemma {:induction false} WholeFrom(entries: seq<Entry>, leader: nat, n: nat, classify: Classifier, m: nat)
    requires leader < m <= n <= |entries| && Leads(entries, leader) && NamesDropped(entries, n, classify) == 0
    requires Whole(GroupNames(entries, leader, m, classify))
    ensures Whole(GroupNames(entries, leader, n, classify))
    decreases n - m
  {
    if m < n {
      NextWholeToo(entries, leader, n, classify, m);
      WholeFrom(entries, leader, n, classify, m + 1);
    }
  }

  /** When no name is reported as dropped, every certificate lists all distinct
      names of its group. */
  lemma NoDropsAllNames(entries: seq<Entry>, leader: nat, n: nat, classify: Classifier)
    requires leader < n <= |entries| && Leads(entries, leader)
    requires NamesDropped(entries, n, classify) == 0
    ensures Whole(GroupNames(entries, leader, n, classify))
  {
    FirstWholeToo(entries, leader, n, classify);
    WholeFrom(entries, leader, n, classify, leader + 1);
  }

  lemma MergedWhole(g: seq<CertificateName>, c: seq<CertificateName>)
    requires FirstNames(g) == Distinct(g) && FirstNames(c) == Distinct(c)
    requires MergeDropped(FirstNames(g), FirstNames(c)) == 0
    ensures FirstNames(g + c) == Distinct(g + c)
  {
    CapAndMerge(g, c);
    NoDropNothingLost(FirstNames(g), FirstNames(c));
    OntoMeaning([], g);
    OntoDistinct(Distinct(g), c);
    OntoConcat([], g, c);
  }

  // ---------------------------------------------- when the count says too much

  ghost predicate AllWhole(entries: seq<Entry>, classify: Classifier)
  {
    forall leader :: 0 <= leader < |entries| && Leads(entries, leader) ==>
      Whole(GroupNames(entries, leader, |entries|, classify))
  }

  /** The entry joins a group, and the names of the group with its own names but the
      last are a hundred or more. */
  predicate FullBeforeLast(entries: seq<Entry>, j: nat, classify: Classifier)
    requires j < |entries|
  {
    var names := FirstNames(Classified(entries[j].names, classify));
    && !Leads(entries, j) && names != []
    && |Distinct(GroupNames(entries, LeaderOf(entries, j), j, classify) + names[..|names| - 1])| >= MAX_NAMES
  }

  lemma {:induction false} GroupGrows(entries: seq<Entry>, leader: nat, n: nat, m: nat, classify: Classifier)
    requires leader < |entries| && n <= m <= |entries|
    ensures GroupNames(entries, leader, n, classify) <= GroupNames(entries, leader, m, classify)
    decreases m
  {
    if n < m { GroupGrows(entries, leader, n, m - 1, classify); }
  }

  lemma PartsShort(a: seq<CertificateName>, b: seq<CertificateName>, all: seq<CertificateName>)
    requires a + b <= all && Whole(all)
    ensures Whole(a) && Whole(b)
  {
    OntoPrefix([], all, |a|);
    assert all[..|a|] == a;
    OntoMeaning([], b);
    OntoMeaning([], all);
    forall raw | HasRaw(Distinct(b), raw) ensures HasRaw(Distinct(all), raw) {
      var i :| 0 <= i < |b| && b[i].raw == raw;
      assert all[|a| + i] == (a + b)[|a| + i] == b[i];
      assert HasRaw(all, raw);
    }
    NoLonger(Distinct(b), Distinct(all));
  }

  lemma WholeEntry(entries: seq<Entry>, j: nat, classify: Classifier)
    requires j < |entries| && AllWhole(entries, classify)
    ensures Whole(GroupNames(entries, LeaderOf(entries, j), j, classify)) && Whole(Classified(entries[j].names, classify))
  {
    var i := LeaderOf(entries, j);
    GroupGrows(entries, i, j + 1, |entries|, classify);
    PartsShort(GroupNames(entries, i, j, classify), Classified(entries[j].names, classify),
               GroupNames(entries, i, |entries|, classify));
  }

  lemma DroppedWhenFull(entries: seq<Entry>, j: nat, classify: Classifier)
    requires j < |entries| && AllWhole(entries, classify)
    ensures DroppedAt(entries, j, classify) > 0 <==> FullBeforeLast(entries, j, classify)
  {
    var c := Classified(entries[j].names, classify);
    WholeEntry(entries, j, classify);
    RefusedNothing(c);
    if !Leads(entries, j) {
      MergeIntoWhole(GroupNames(entries, LeaderOf(entries, j), j, classify), FirstNames(c));
    }
  }

  lemma MergeIntoWhole(g: seq<CertificateName>, names: seq<CertificateName>)
    requires Whole(g)
    ensures MergeDropped(FirstNames(g), names) > 0 <==>
              names != [] && |Distinct(g + names[..|names| - 1])| >= MAX_NAMES
  {
    MergeDropsNothing(FirstNames(g), names);
    if names != [] {
      MergeIsCapped(FirstNames(g), names[..|names| - 1]);
      OntoConcat([], g, names[..|names| - 1]);
    }
  }

  lemma {:induction false} SumPositive(ns: seq<nat>, j: nat)
    requires j < |ns| && ns[j] > 0
    ensures Sum(ns) > 0
  {
    if j < |ns| - 1 { SumPositive(ns[..|ns| - 1], j); }
  }

  lemma SomeDropped(entries: seq<Entry>, n: nat, classify: Classifier)
    requires n <= |entries|
    ensures NamesDropped(entries, n, classify) > 0 <==> exists j :: 0 <= j < n && DroppedAt(entries, j, classify) > 0
  {
    var drops := DropsUpTo(entries, n, classify);
    if j :| 0 <= j < n && DroppedAt(entries, j, classify) > 0 { SumPositive(drops, j); }
    if NamesDropped(entries, n, classify) > 0 { SomePositive(drops); }
  }

  lemma {:induction false} SomePositive(ns: seq<nat>)
    requires Sum(ns) > 0
    ensures exists j :: 0 <= j < |ns| && ns[j] > 0
  {
    if ns[|ns| - 1] == 0 { SomePositive(ns[..|ns| - 1]); }
  }

  /** No drop is reported exactly when every certificate lists all distinct names of
      its group and no entry met a list that was full before its last name. */
  lemma CountExactly(entries: seq<Entry>, classify: Classifier)
    ensures NamesDropped(entries, |entries|, classify) == 0 <==>
              AllWhole(entries, classify) && forall j :: 0 <= j < |entries| ==> !FullBeforeLast(entries, j, classify)
  {
    if NamesDropped(entries, |entries|, classify) == 0 {
      forall leader | 0 <= leader < |entries| && Leads(entries, leader)
        ensures Whole(GroupNames(entries, leader, |entries|, classify))
      {
        NoDropsAllNames(entries, leader, |entries|, classify);
      }
    }
    if AllWhole(entries, classify) {
      SomeDropped(entries, |entries|, classify);
      forall j | 0 <= j < |entries|
        ensures DroppedAt(entries, j, classify) > 0 <==> FullBeforeLast(entries, j, classify)
      {
        DroppedWhenFull(entries, j, classify);
      }
    }
  }

  // ------------------------------------------------------- a repeated name counts

  function PlainName(raw: string): (c: CertificateName)
  {
    CertificateName(raw, None, false, Unrelated)
  }

  function Letters(n: nat): (s: string)
    ensures |s| == n && '@' !in s
  {
    if n == 0 then "" else Letters(n - 1) + ['a']
  }

  /** `n` different names. */
  function Names(n: nat): (r: seq<string>)
    ensures |r| == n
  {
    if n == 0 then [] else Names(n - 1) + [Letters(n)]
  }

  lemma PlainSnoc(raw: seq<string>, x: string)
    requires '@' !in x
    ensures Classified(raw + [x], PlainName) == Classified(raw, PlainName) + [PlainName(x)]
  {
    assert (raw + [x])[..|raw|] == raw;
  }

  function PlainNames(n: nat): (r: seq<CertificateName>)
    ensures |r| == n && (forall i :: 0 <= i < n ==> |r[i].raw| == i + 1) && (n > 0 ==> r[0].raw == "a")
  {
    if n == 0 then [] else PlainNames(n - 1) + [PlainName(Letters(n))]
  }

  lemma {:induction false} NamesClassified(n: nat)
    ensures Classified(Names(n), PlainName) == PlainNames(n)
  {
    if n > 0 {
      NamesClassified(n - 1);
      PlainSnoc(Names(n - 1), Letters(n));
    }
  }

  lemma {:induction false} ApartStays(s: seq<CertificateName>)
    requires RawApart(s)
    ensures Distinct(s) == s
  {
    if s != [] {
      var init := s[..|s| - 1];
      ApartStays(init);
      assert s == init + [s[|s| - 1]];
      assert !HasRaw(init, s[|s| - 1].raw);
    }
  }

  function Issuing(names: seq<string>): (e: Entry)
  {
    Entry(None, Some("issuer"), None, names, None, None, Some("01"), [])
  }

  /** A hundred names, then an entry for the same certificate that repeats one. */
  function Twice(): (entries: seq<Entry>)
  {
    [Issuing(Names(MAX_NAMES)), Issuing(["a"])]
  }

  lemma PlainApart(n: nat)
    ensures Distinct(PlainNames(n)) == PlainNames(n)
  {
    var c := PlainNames(n);
    forall i, j | 0 <= i < j < |c| ensures c[i].raw != c[j].raw { assert |c[i].raw| != |c[j].raw|; }
    ApartStays(c);
  }

  lemma HundredNames()
    ensures var c := Classified(Names(MAX_NAMES), PlainName);
      |c| == MAX_NAMES && Distinct(c) == c && c[0].raw == "a"
  {
    NamesClassified(MAX_NAMES);
    PlainApart(MAX_NAMES);
  }

  lemma OneName()
    ensures Classified(["a"], PlainName) == [PlainName("a")]
  {
    PlainSnoc([], "a");
    assert ["a"] == [] + ["a"];
  }

  lemma RepeatedAdds(c: seq<CertificateName>, x: CertificateName)
    requires c != [] && c[0].raw == x.raw && Distinct(c) == c
    ensures Distinct(c + [x]) == c
  {
    assert (c + [x])[..|c|] == c;
    assert HasRaw(c, x.raw);
  }

  lemma TwiceGroups(entries: seq<Entry>)
    requires entries == Twice()
    ensures HexSerials(entries) && Leads(entries, 0) && !Leads(entries, 1) && LeaderOf(entries, 1) == 0
    ensures GroupNames(entries, 0, 1, PlainName) == Classified(Names(MAX_NAMES), PlainName)
    ensures GroupNames(entries, 0, 2, PlainName)
         == Classified(Names(MAX_NAMES), PlainName) + Classified(["a"], PlainName)
  {
    assert SameCertificate(entries[0], entries[1]);
    assert GroupNames(entries, 0, 0, PlainName) == [];
  }

  lemma BothWhole(entries: seq<Entry>, c: seq<CertificateName>, x: CertificateName)
    requires |entries| == 2 && Leads(entries, 0) && !Leads(entries, 1)
    requires GroupNames(entries, 0, 2, PlainName) == c + [x] && Distinct(c + [x]) == c && |c| == MAX_NAMES
    ensures AllWhole(entries, PlainName)
  {
  }

  /** The documented reading of the count fails one way: here a drop is reported
      although every certificate lists all distinct names of its group. */
  lemma DropReportedNothingLost() returns (entries: seq<Entry>, classify: Classifier)
    ensures HexSerials(entries) && AllWhole(entries, classify) && NamesDropped(entries, |entries|, classify) > 0
  {
    entries, classify := Twice(), PlainName;
    var c, x := Classified(Names(MAX_NAMES), PlainName), PlainName("a");
    HundredNames();
    OneName();
    TwiceGroups(entries);
    RepeatedAdds(c, x);
    BothWhole(entries, c, x);
    LastRepeats(entries, c, x);
    CountExactly(entries, PlainName);
  }

  lemma LastRepeats(entries: seq<Entry>, c: seq<CertificateName>, x: CertificateName)
    requires |entries| == 2 && !Leads(entries, 1) && LeaderOf(entries, 1) == 0
    requires GroupNames(entries, 0, 1, PlainName) == c && |c| == MAX_NAMES && Distinct(c) == c
    requires Classified(entries[1].names, PlainName) == [x]
    ensures FullBeforeLast(entries, 1, PlainName)
  {
    ApartStays([x]);
    var names := FirstNames([x]);
    assert names == [x] && names[..0] == [] && c + [] == c;
  }
}
