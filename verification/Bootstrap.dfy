/** The RDAP bootstrap registry (section 5.1 of RFC 9224): which service is
    authoritative for an address
    (crates/collectors/src/sources/rdap/bootstrap.rs). JSON decoding is not
    part of this model: the input is the decoded `services` array. */
module Bootstrap {
  import opened Results
  import opened Net
  import opened Ordering
  import opened Places

  const MAX_SERVICES: nat := 2048
  const MAX_PREFIXES_PER_SERVICE: nat := 4096
  const MAX_URLS_PER_SERVICE: nat := 8

  datatype Url = Url(scheme: string, username: string, password: Option<string>,
                     host: Option<string>, query: Option<string>, fragment: Option<string>)

  /** One element of the array. A prefix or URL is `None` where the JSON value is
      not a string or does not parse. */
  datatype Service = Malformed | Service(prefixes: seq<Option<IpPrefix>>, urls: seq<Option<Url>>)

  datatype Entry = Entry(prefix: IpPrefix, urls: seq<Url>)

  datatype ParseError = NoUsableServices

  predicate AcceptableBase(url: Url, allowHttp: bool)
  {
    && (url.scheme == "https" || (allowHttp && url.scheme == "http"))
    && url.username == "" && url.password.None?
    && url.query.None? && url.fragment.None? && url.host.Some?
  }

  /** Parsed prefixes went through the prefix constructor. */
  ghost predicate ParsedPrefixes(services: seq<Service>)
  {
    forall s, p :: s in services && s.Service? && Some(p) in s.prefixes ==> ValidPrefix(p)
  }

  function Take<T>(s: seq<T>, n: nat): (r: seq<T>)
  {
    if |s| <= n then s else s[..n]
  }

  function UsableUrls(urls: seq<Option<Url>>, allowHttp: bool): (r: seq<Url>)
  {
    if urls == [] then []
    else (if urls[0].Some? && AcceptableBase(urls[0].value, allowHttp) then [urls[0].value] else [])
         + UsableUrls(urls[1..], allowHttp)
  }

  function UsablePrefixes(prefixes: seq<Option<IpPrefix>>): (r: seq<IpPrefix>)
  {
    if prefixes == [] then []
    else (if prefixes[0].Some? then [prefixes[0].value] else []) + UsablePrefixes(prefixes[1..])
  }

  function Attach(prefixes: seq<IpPrefix>, urls: seq<Url>): (r: seq<Entry>)
  {
    seq(|prefixes|, i requires 0 <= i < |prefixes| => Entry(prefixes[i], urls))
  }

  /** What one service contributes. */
  function EntriesOf(s: Service, allowHttp: bool): (r: seq<Entry>)
  {
    match s
    case Malformed => []
    case Service(prefixes, urls) =>
      var kept := Take(UsableUrls(urls, allowHttp), MAX_URLS_PER_SERVICE);
      if kept == [] then []
      else Attach(UsablePrefixes(Take(prefixes, MAX_PREFIXES_PER_SERVICE)), kept)
  }

  /** All entries in document order. */
  function EntriesUpTo(services: seq<Service>, n: nat, allowHttp: bool): (r: seq<Entry>)
    requires n <= |services|
  {
    if n == 0 then [] else EntriesUpTo(services, n - 1, allowHttp) + EntriesOf(services[n - 1], allowHttp)
  }

  lemma {:induction false} UsablePrefixesStep(prefixes: seq<Option<IpPrefix>>, i: nat)
    requires i < |prefixes|
    ensures UsablePrefixes(prefixes[..i + 1])
         == UsablePrefixes(prefixes[..i]) + (if prefixes[i].Some? then [prefixes[i].value] else [])
  {
    if i > 0 {
      assert prefixes[..i + 1][1..] == prefixes[1..][..i];
      assert prefixes[..i][1..] == prefixes[1..][..i - 1];
      UsablePrefixesStep(prefixes[1..], i - 1);
    }
  }

  lemma {:induction false} UsableUrlsStep(urls: seq<Option<Url>>, i: nat, allowHttp: bool)
    requires i < |urls|
    ensures UsableUrls(urls[..i + 1], allowHttp)
         == UsableUrls(urls[..i], allowHttp)
            + (if urls[i].Some? && AcceptableBase(urls[i].value, allowHttp) then [urls[i].value] else [])
  {
    if i > 0 {
      assert urls[..i + 1][1..] == urls[1..][..i];
      assert urls[..i][1..] == urls[1..][..i - 1];
      UsableUrlsStep(urls[1..], i - 1, allowHttp);
    }
  }

  lemma {:induction false} UsableUrlsPrefix(urls: seq<Option<Url>>, i: nat, allowHttp: bool)
    requires i <= |urls|
    ensures UsableUrls(urls[..i], allowHttp) <= UsableUrls(urls, allowHttp)
    decreases |urls| - i
  {
    if i < |urls| {
      UsableUrlsStep(urls, i, allowHttp);
      UsableUrlsPrefix(urls, i + 1, allowHttp);
    } else {
      assert urls[..i] == urls;
    }
  }

  /** The first few acceptable base URLs of a service. */
  method CollectUrls(urls: seq<Option<Url>>, allowHttp: bool) returns (kept: seq<Url>)
    ensures kept == Take(UsableUrls(urls, allowHttp), MAX_URLS_PER_SERVICE)
  {
    kept := [];
    var i := 0;
    while i < |urls| && |kept| < MAX_URLS_PER_SERVICE
      invariant 0 <= i <= |urls|
      invariant kept == UsableUrls(urls[..i], allowHttp)
      invariant |kept| <= MAX_URLS_PER_SERVICE
    {
      UsableUrlsStep(urls, i, allowHttp);
      match urls[i] {
        case Some(url) =>
          if AcceptableBase(url, allowHttp) { kept := kept + [url]; }
        case None =>
      }
      i := i + 1;
    }
    UsableUrlsPrefix(urls, i, allowHttp);
    if i == |urls| { assert urls[..i] == urls; }
  }

  /** Adds an entry for each prefix that could be parsed. */
  method AddPrefixes(entries: seq<Entry>, prefixes: seq<Option<IpPrefix>>, urls: seq<Url>) returns (r: seq<Entry>)
    ensures r == entries + Attach(UsablePrefixes(prefixes), urls)
  {
    r := entries;
    for i := 0 to |prefixes|
      invariant r == entries + Attach(UsablePrefixes(prefixes[..i]), urls)
    {
      UsablePrefixesStep(prefixes, i);
      match prefixes[i] {
        case Some(prefix) =>
          AttachSnoc(UsablePrefixes(prefixes[..i]), prefix, urls);
          r := r + [Entry(prefix, urls)];
        case None =>
          assert UsablePrefixes(prefixes[..i]) + [] == UsablePrefixes(prefixes[..i]);
      }
    }
    assert prefixes[..|prefixes|] == prefixes;
  }

  lemma AttachSnoc(prefixes: seq<IpPrefix>, p: IpPrefix, urls: seq<Url>)
    ensures Attach(prefixes + [p], urls) == Attach(prefixes, urls) + [Entry(p, urls)]
  {
  }

  /** Adds what one service contributes. */
  method AddService(entries: seq<Entry>, s: Service, allowHttp: bool) returns (r: seq<Entry>)
    ensures r == entries + EntriesOf(s, allowHttp)
  {
    r := entries;
    match s {
      case Malformed =>
      case Service(allPrefixes, rawUrls) =>
        var urls := CollectUrls(rawUrls, allowHttp);
        if urls != [] { r := AddPrefixes(entries, Take(allPrefixes, MAX_PREFIXES_PER_SERVICE), urls); }
    }
  }

  /** Collects `EntriesUpTo` of the services that are read, in order; refuses exactly
      when that is empty. */
  method Parse(services: seq<Service>, allowHttp: bool) returns (r: Result<seq<Entry>, ParseError>)
    ensures var all := EntriesUpTo(services, Min(|services|, MAX_SERVICES), allowHttp);
            r == if all == [] then Err(NoUsableServices) else Ok(all)
  {
    var entries: seq<Entry> := [];
    var n := Min(|services|, MAX_SERVICES);
    for s := 0 to n
      invariant entries == EntriesUpTo(services, s, allowHttp)
    {
      entries := AddService(entries, services[s], allowHttp);
    }
    r := if entries == [] then Err(NoUsableServices) else Ok(entries);
  }

  // ------------------------------------------------------------ what is kept

  /** The URL here names a host over HTTPS, or over HTTP where that is allowed, and
      nothing else: no credentials, no query and no fragment. */
  predicate UsableAt(urls: seq<Option<Url>>, allowHttp: bool, i: nat)
  {
    && i < |urls| && urls[i].Some?
    && (urls[i].value.scheme == "https" || (allowHttp && urls[i].value.scheme == "http")) && urls[i].value.host.Some?
    && urls[i].value.username == "" && urls[i].value.password == None
    && urls[i].value.query == None && urls[i].value.fragment == None
  }

  /** The usable URLs, the first eight of them. */
  ghost predicate FirstUsable(urls: seq<Option<Url>>, allowHttp: bool, kept: seq<Url>)
  {
    exists places: seq<nat> ::
      && Ascends(places) && (forall i: nat :: i in places <==> UsableAt(urls, allowHttp, i))
      && |kept| == Min(|places|, MAX_URLS_PER_SERVICE)
      && forall k :: 0 <= k < |kept| ==> places[k] < |urls| && urls[places[k]] == Some(kept[k])
  }

  /** A service that is read has a prefix here, and a usable URL. */
  ghost predicate OffersAt(services: seq<Service>, allowHttp: bool, p: Spot)
  {
    && p.entry < |services| && services[p.entry].Service?
    && p.item < |services[p.entry].prefixes| && p.item < MAX_PREFIXES_PER_SERVICE
    && services[p.entry].prefixes[p.item].Some? && exists i :: UsableAt(services[p.entry].urls, allowHttp, i)
  }

  /** The entry has this prefix and the first usable URLs of its service. */
  ghost predicate EntryAt(services: seq<Service>, allowHttp: bool, p: Spot, e: Entry)
  {
    && OffersAt(services, allowHttp, p) && services[p.entry].prefixes[p.item] == Some(e.prefix)
    && FirstUsable(services[p.entry].urls, allowHttp, e.urls)
  }

  ghost predicate EntriesAt(services: seq<Service>, allowHttp: bool, spots: seq<Spot>, entries: seq<Entry>)
  {
    |spots| == |entries| && forall k :: 0 <= k < |entries| ==> EntryAt(services, allowHttp, spots[k], entries[k])
  }

  lemma {:induction false} UrlPlaces(urls: seq<Option<Url>>, n: nat, allowHttp: bool) returns (places: seq<nat>)
    requires n <= |urls|
    ensures Ascends(places) && |places| == |UsableUrls(urls[..n], allowHttp)|
    ensures forall i: nat :: i in places <==> i < n && UsableAt(urls, allowHttp, i)
    ensures forall k :: 0 <= k < |places| ==> places[k] < |urls| && urls[places[k]] == Some(UsableUrls(urls[..n], allowHttp)[k])
  {
    places := [];
    if n > 0 {
      places := UrlPlaces(urls, n - 1, allowHttp);
      UsableUrlsStep(urls, n - 1, allowHttp);
      AppendPlace(places, n - 1);
      if UsableAt(urls, allowHttp, n - 1) { places := places + [n - 1]; }
    }
  }

  lemma FirstKept(urls: seq<Option<Url>>, allowHttp: bool, all: seq<Url>, places: seq<nat>)
    requires Ascends(places) && |places| == |all| && forall i: nat :: i in places <==> UsableAt(urls, allowHttp, i)
    requires forall k :: 0 <= k < |places| ==> places[k] < |urls| && urls[places[k]] == Some(all[k])
    ensures FirstUsable(urls, allowHttp, Take(all, MAX_URLS_PER_SERVICE))
    ensures all != [] <==> exists i :: UsableAt(urls, allowHttp, i)
  {
    if i :| UsableAt(urls, allowHttp, i) { assert i in places; }
    if places != [] { assert places[0] in places; }
  }

  lemma UrlsKept(urls: seq<Option<Url>>, allowHttp: bool)
    ensures FirstUsable(urls, allowHttp, Take(UsableUrls(urls, allowHttp), MAX_URLS_PER_SERVICE))
    ensures UsableUrls(urls, allowHttp) != [] <==> exists i :: UsableAt(urls, allowHttp, i)
  {
    var places := UrlPlaces(urls, |urls|, allowHttp);
    assert urls[..|urls|] == urls;
    FirstKept(urls, allowHttp, UsableUrls(urls, allowHttp), places);
  }

  lemma {:induction false} PrefixPlaces(prefixes: seq<Option<IpPrefix>>, n: nat) returns (places: seq<nat>)
    requires n <= |prefixes|
    ensures Ascends(places) && |places| == |UsablePrefixes(prefixes[..n])|
    ensures forall i: nat :: i in places <==> i < n && prefixes[i].Some?
    ensures forall k :: 0 <= k < |places| ==> places[k] < n && prefixes[places[k]] == Some(UsablePrefixes(prefixes[..n])[k])
  {
    places := [];
    if n > 0 {
      places := PrefixPlaces(prefixes, n - 1);
      UsablePrefixesStep(prefixes, n - 1);
      AppendPlace(places, n - 1);
      if prefixes[n - 1].Some? { places := places + [n - 1]; }
    }
  }

  lemma ServiceSpots(services: seq<Service>, s: nat, allowHttp: bool) returns (spots: seq<Spot>)
    requires s < |services|
    ensures SpotsAscend(spots) && EntriesAt(services, allowHttp, spots, EntriesOf(services[s], allowHttp))
    ensures forall p :: p in spots <==> OffersAt(services, allowHttp, p) && p.entry == s
  {
    spots := [];
    if services[s].Service? {
      UrlsKept(services[s].urls, allowHttp);
      if UsableUrls(services[s].urls, allowHttp) != [] {
        var n := Min(|services[s].prefixes|, MAX_PREFIXES_PER_SERVICE);
        var places := PrefixPlaces(services[s].prefixes, n);
        assert Take(services[s].prefixes, MAX_PREFIXES_PER_SERVICE) == services[s].prefixes[..n];
        ItemsOfMembers(s, places);
        spots := ItemsOf(s, places);
        forall k | 0 <= k < |spots| ensures OffersAt(services, allowHttp, spots[k]) { assert places[k] in places; }
      }
    }
  }

  lemma {:induction false} SpotsBelow(services: seq<Service>, n: nat, allowHttp: bool) returns (spots: seq<Spot>)
    requires n <= |services|
    ensures SpotsAscend(spots) && EntriesAt(services, allowHttp, spots, EntriesUpTo(services, n, allowHttp))
    ensures forall p :: p in spots <==> OffersAt(services, allowHttp, p) && p.entry < n
  {
    spots := [];
    if n > 0 {
      var before := SpotsBelow(services, n - 1, allowHttp);
      var next := ServiceSpots(services, n - 1, allowHttp);
      AppendSpots(before, next, n - 1);
      EntriesAppended(services, allowHttp, before, EntriesUpTo(services, n - 1, allowHttp), next, EntriesOf(services[n - 1], allowHttp));
      spots := before + next;
    }
  }

  lemma EntriesAppended(services: seq<Service>, allowHttp: bool, a: seq<Spot>, s: seq<Entry>, b: seq<Spot>, t: seq<Entry>)
    requires EntriesAt(services, allowHttp, a, s) && EntriesAt(services, allowHttp, b, t)
    ensures EntriesAt(services, allowHttp, a + b, s + t)
  {
    forall k | 0 <= k < |s + t| ensures EntryAt(services, allowHttp, (a + b)[k], (s + t)[k]) {
      if k < |s| {
        assert EntryAt(services, allowHttp, a[k], s[k]);
      } else {
        assert EntryAt(services, allowHttp, b[k - |s|], t[k - |s|]);
      }
    }
  }

  /** Parsing keeps exactly the prefixes of the services that have a usable URL, in
      document order, each with the first eight usable URLs of its service: of the
      first so many services, and of each the first so many prefixes. */
  lemma ParsedExactly(services: seq<Service>, allowHttp: bool) returns (spots: seq<Spot>)
    ensures SpotsAscend(spots)
    ensures EntriesAt(services, allowHttp, spots, EntriesUpTo(services, Min(|services|, MAX_SERVICES), allowHttp))
    ensures forall p :: p in spots <==> OffersAt(services, allowHttp, p) && p.entry < MAX_SERVICES
  {
    spots := SpotsBelow(services, Min(|services|, MAX_SERVICES), allowHttp);
  }

  // ----------------------------------------------------------------- lookup

  /** `max_by_key` over the prefix length: the last of the longest. */
  function LastLongest(entries: seq<Entry>): (r: Option<Entry>)
  {
    if entries == [] then None
    else
      var n := |entries| - 1;
      var best := LastLongest(entries[..n]);
      if best.Some? && best.value.prefix.len > entries[n].prefix.len then best
      else Some(entries[n])
  }

  function FirstUrl(entry: Entry): (r: Option<Url>)
  {
    if entry.urls == [] then None else Some(entry.urls[0])
  }

  /** Entries covering `ip`, in registry order. */
  function Covering(entries: seq<Entry>, ip: IpAddr): (r: seq<Entry>)
  {
    Filter(entries, (e: Entry) => Contains(e.prefix, ip))
  }

  /** Looks an address up: the first URL of the covering entry with the longest
      prefix. */
  function ServiceFor(entries: seq<Entry>, ip: IpAddr): (r: Option<Url>)
  {
    match LastLongest(Covering(entries, ip))
    case None => None
    case Some(entry) => FirstUrl(entry)
  }

  lemma {:induction false} UsableUrlsAccepted(urls: seq<Option<Url>>, allowHttp: bool)
    ensures forall u :: u in UsableUrls(urls, allowHttp) ==> AcceptableBase(u, allowHttp)
  {
    if urls != [] { UsableUrlsAccepted(urls[1..], allowHttp); }
  }

  lemma {:induction false} UsablePrefixesMembers(prefixes: seq<Option<IpPrefix>>)
    ensures forall p :: p in UsablePrefixes(prefixes) ==> Some(p) in prefixes
  {
    if prefixes != [] { UsablePrefixesMembers(prefixes[1..]); }
  }

  /** A registry as `Parse` leaves it. */
  ghost predicate WellFormed(entries: seq<Entry>, allowHttp: bool)
  {
    forall e :: e in entries ==>
      ValidPrefix(e.prefix) && 1 <= |e.urls| <= MAX_URLS_PER_SERVICE &&
      forall u :: u in e.urls ==> AcceptableBase(u, allowHttp)
  }

  /** Parsing stores only valid prefixes, each with one to eight acceptable
      URLs; an empty URL list is never stored. */
  lemma {:induction false} ParsedIsWellFormed(services: seq<Service>, n: nat, allowHttp: bool)
    requires n <= |services| && ParsedPrefixes(services)
    ensures WellFormed(EntriesUpTo(services, n, allowHttp), allowHttp)
  {
    if n > 0 {
      ParsedIsWellFormed(services, n - 1, allowHttp);
      var s := services[n - 1];
      forall e | e in EntriesOf(s, allowHttp)
        ensures WellFormed([e], allowHttp)
      {
        UsableUrlsAccepted(s.urls, allowHttp);
        var prefixes := Take(s.prefixes, MAX_PREFIXES_PER_SERVICE);
        UsablePrefixesMembers(prefixes);
        assert e.prefix in UsablePrefixes(prefixes);
        assert Some(e.prefix) in s.prefixes;
        assert WellFormed([e], allowHttp);
      }
      forall e | e in EntriesUpTo(services, n, allowHttp) ensures WellFormed([e], allowHttp) {
        if e in EntriesUpTo(services, n - 1, allowHttp) {
        } else {
          assert e in EntriesOf(s, allowHttp);
        }
      }
      forall e | e in EntriesUpTo(services, n, allowHttp)
        ensures ValidPrefix(e.prefix) && 1 <= |e.urls| <= MAX_URLS_PER_SERVICE
        ensures forall u :: u in e.urls ==> AcceptableBase(u, allowHttp)
      {
        assert e in [e] && WellFormed([e], allowHttp);
      }
    }
  }

  /** Entry `k` covers the address, no covering entry has a longer prefix, and no later
      one has one as long. */
  ghost predicate IsLastLongest(entries: seq<Entry>, ip: IpAddr, k: nat)
  {
    && k < |entries| && Contains(entries[k].prefix, ip)
    && forall i :: 0 <= i < |entries| && Contains(entries[i].prefix, ip) ==>
         entries[i].prefix.len <= entries[k].prefix.len && (i > k ==> entries[i].prefix.len < entries[k].prefix.len)
  }

  lemma CoveringStep(entries: seq<Entry>, ip: IpAddr)
    requires entries != []
    ensures var n := |entries| - 1;
            Covering(entries, ip) == Covering(entries[..n], ip) + (if Contains(entries[n].prefix, ip) then [entries[n]] else [])
  {
    var n := |entries| - 1;
    var p := (e: Entry) => Contains(e.prefix, ip);
    assert entries == entries[..n] + [entries[n]];
    FilterConcat(entries[..n], [entries[n]], p);
    assert Filter([entries[n]][1..], p) == [];
  }

  /** Whether these entries' answer is what the scan of the covering ones finds. */
  ghost predicate Answers(entries: seq<Entry>, ip: IpAddr, covering: seq<Entry>, k: nat)
  {
    if covering == [] then forall i :: 0 <= i < |entries| ==> !Contains(entries[i].prefix, ip)
    else IsLastLongest(entries, ip, k) && LastLongest(covering) == Some(entries[k])
  }

  lemma AnswerStep(entries: seq<Entry>, ip: IpAddr, covering: seq<Entry>, k: nat, e: Entry, next: seq<Entry>) returns (j: nat)
    requires Answers(entries, ip, covering, k)
    requires next == covering + (if Contains(e.prefix, ip) then [e] else [])
    ensures Answers(entries + [e], ip, next, j)
  {
    var all := entries + [e];
    j := k;
    assert forall i :: 0 <= i < |entries| ==> all[i] == entries[i];
    if Contains(e.prefix, ip) {
      assert next[..|covering|] == covering;
      if covering == [] || entries[k].prefix.len <= e.prefix.len { j := |entries|; }
      assert all[|entries|] == e && next != [];
      assert LastLongest(next) == Some(all[j]);
      forall i | 0 <= i < |all| && Contains(all[i].prefix, ip)
        ensures all[i].prefix.len <= all[j].prefix.len && (i > j ==> all[i].prefix.len < all[j].prefix.len)
      {
        if i < |entries| { assert all[i] == entries[i] && covering != []; }
      }
    } else {
      assert next == covering;
    }
  }

  lemma {:induction false} LastLongestFound(entries: seq<Entry>, ip: IpAddr) returns (k: nat)
    ensures Answers(entries, ip, Covering(entries, ip), k)
  {
    k := 0;
    if entries != [] {
      var init, e := entries[..|entries| - 1], entries[|entries| - 1];
      k := LastLongestFound(init, ip);
      CoveringStep(entries, ip);
      k := AnswerStep(init, ip, Covering(init, ip), k, e, Covering(entries, ip));
      assert entries == init + [e];
    }
  }

  /** The block of entry `k` lies inside the block of every entry that covers the
      address. */
  ghost predicate InsideEach(entries: seq<Entry>, ip: IpAddr, k: nat)
    requires k < |entries|
  {
    forall i :: 0 <= i < |entries| && Contains(entries[i].prefix, ip) ==> Within(entries[k].prefix, entries[i].prefix)
  }

  lemma LongestIsInside(entries: seq<Entry>, allowHttp: bool, ip: IpAddr, k: nat)
    requires WellFormed(entries, allowHttp) && IsLastLongest(entries, ip, k)
    ensures InsideEach(entries, ip, k)
  {
    forall i | 0 <= i < |entries| && Contains(entries[i].prefix, ip) ensures Within(entries[k].prefix, entries[i].prefix) {
      assert entries[k] in entries && entries[i] in entries;
      LongerInside(entries[k].prefix, entries[i].prefix, ip);
    }
  }

  /** The lookup is longest-prefix match: the answer is the first URL of a
      covering entry whose block lies inside every other covering block, ties
      go to the last entry, and there is no answer exactly when nothing covers
      the address. */
  lemma LongestPrefixMatch(entries: seq<Entry>, allowHttp: bool, ip: IpAddr) returns (k: nat)
    requires WellFormed(entries, allowHttp)
    ensures ServiceFor(entries, ip).None? <==> forall e :: e in entries ==> !Contains(e.prefix, ip)
    ensures ServiceFor(entries, ip).Some? ==>
              && IsLastLongest(entries, ip, k) && InsideEach(entries, ip, k)
              && entries[k].urls != [] && ServiceFor(entries, ip) == Some(entries[k].urls[0])
  {
    k := LastLongestFound(entries, ip);
    if Covering(entries, ip) != [] {
      LongestIsInside(entries, allowHttp, ip, k);
      assert entries[k] in entries;
    }
  }
}
