/** How entities are displayed, and that the displays tell them apart: what the
    identifiers of correlations rely on (crates/core/src/entity.rs, net.rs and
    indicator/). Addresses are written as the standard library writes them. */
module Display {
  import opened Net
  import opened Model
  import opened Numerals
  import opened CorrelationIds

  const DOT: int := '.' as int
  const SLASH: int := '/' as int

  // -------------------------------------------------------------------- texts

  function Text(n: nat, base: nat): (r: Bytes)
    requires 2 <= base <= 16
  {
    Codes(Numeral(n, base))
  }

  predicate HexCode(c: int)
  {
    '0' as int <= c <= '9' as int || 'a' as int <= c <= 'f' as int
  }

  lemma TextMeaning(n: nat, base: nat)
    requires 2 <= base <= 16
    ensures Text(n, base) != [] && forall c :: c in Text(n, base) ==> HexCode(c)
  {
    var s := Numeral(n, base);
    assert |Codes(s)| == |s|;
  }

  lemma TextInjective(a: nat, b: nat, base: nat)
    requires 2 <= base <= 16 && Text(a, base) == Text(b, base)
    ensures a == b
  {
    CodesInjective(Numeral(a, base), Numeral(b, base));
    NumeralInjective(a, b, base);
  }

  function Texts(ns: seq<nat>, base: nat): (r: seq<Bytes>)
    requires 2 <= base <= 16
    ensures |r| == |ns| && forall i :: 0 <= i < |ns| ==> r[i] == Text(ns[i], base)
  {
    seq(|ns|, i requires 0 <= i < |ns| => Text(ns[i], base))
  }

  lemma TextsInjective(a: seq<nat>, b: seq<nat>, base: nat)
    requires 2 <= base <= 16 && Texts(a, base) == Texts(b, base)
    ensures a == b
  {
    assert |a| == |Texts(a, base)| == |b|;
    forall i | 0 <= i < |a| ensures a[i] == b[i] {
      assert Texts(a, base)[i] == Texts(b, base)[i];
      TextInjective(a[i], b[i], base);
    }
  }

  // -------------------------------------------------------------------- joining

  function Joined(parts: seq<Bytes>, sep: int): (r: Bytes)
    requires parts != []
  {
    if |parts| == 1 then parts[0] else parts[0] + ([sep] + Joined(parts[1..], sep))
  }

  ghost predicate Free(parts: seq<Bytes>, c: int)
  {
    forall i :: 0 <= i < |parts| ==> c !in parts[i]
  }

  /** Splitting at the separator gives the parts back. */
  lemma {:induction false} JoinInjective(a: seq<Bytes>, b: seq<Bytes>, sep: int)
    requires a != [] && b != [] && Free(a, sep) && Free(b, sep) && Joined(a, sep) == Joined(b, sep)
    ensures a == b
  {
    var s := if |a| == 1 then [] else [sep] + Joined(a[1..], sep);
    var t := if |b| == 1 then [] else [sep] + Joined(b[1..], sep);
    assert Joined(a, sep) == a[0] + s && Joined(b, sep) == b[0] + t;
    Unsplit(a[0], s, b[0], t, sep);
    if |a| > 1 {
      assert s[1..] == Joined(a[1..], sep) && t[1..] == Joined(b[1..], sep);
      JoinInjective(a[1..], b[1..], sep);
      assert a == [a[0]] + a[1..] && b == [b[0]] + b[1..];
    }
  }

  lemma {:induction false} JoinConcat(a: seq<Bytes>, b: seq<Bytes>, sep: int)
    requires a != [] && b != []
    ensures Joined(a + b, sep) == Joined(a, sep) + ([sep] + Joined(b, sep))
  {
    assert (a + b)[0] == a[0];
    if |a| == 1 {
      assert (a + b)[1..] == b;
    } else {
      assert (a + b)[1..] == a[1..] + b;
      JoinConcat(a[1..], b, sep);
      var x, y, z := a[0], Joined(a[1..], sep), [sep] + Joined(b, sep);
      assert x + ([sep] + (y + z)) == x + ([sep] + y) + z;
    }
  }

  lemma {:induction false} JoinFree(parts: seq<Bytes>, sep: int, c: int)
    requires parts != [] && Free(parts, c) && c != sep
    ensures c !in Joined(parts, sep)
  {
    if |parts| > 1 {
      assert forall i :: 0 <= i < |parts[1..]| ==> parts[1..][i] == parts[i + 1];
      JoinFree(parts[1..], sep, c);
    }
  }

  lemma JoinHolds(parts: seq<Bytes>, sep: int)
    requires |parts| > 1
    ensures sep in Joined(parts, sep)
  {
    var t := Joined(parts, sep);
    assert t[|parts[0]|] == sep;
  }

  // ------------------------------------------------------------------ addresses

  function Dotted(octets: seq<nat>): (r: Bytes)
    requires octets != []
  {
    Joined(Texts(octets, 10), DOT)
  }

  function Octets(n: nat, k: nat): (r: seq<nat>)
    ensures |r| == k
  {
    var b := BigEndian(n, k);
    seq(k, i requires 0 <= i < k => b[i])
  }

  lemma OctetsInjective(a: nat, b: nat, k: nat)
    requires Octets(a, k) == Octets(b, k) && a < Power256(k) && b < Power256(k)
    ensures a == b
  {
    var x, y := BigEndian(a, k), BigEndian(b, k);
    forall i | 0 <= i < k ensures x[i] == y[i] { assert Octets(a, k)[i] == Octets(b, k)[i]; }
    BigEndianInjective(a, b, k);
  }

  /** The eight groups of an IPv6 address. */
  function Groups(octets: seq<nat>): (r: seq<nat>)
    requires |octets| == 16
    ensures |r| == 8
  {
    seq(8, i requires 0 <= i < 8 => 256 * octets[2 * i] + octets[2 * i + 1])
  }

  datatype Span = Span(start: nat, len: nat)

  predicate ZeroSpan(groups: seq<nat>, s: Span)
  {
    s.start + s.len <= |groups| && forall i :: s.start <= i < s.start + s.len ==> groups[i] == 0
  }

  /** The run of zeros that ends here, and the first longest one so far. */
  function ZeroRuns(groups: seq<nat>, n: nat): (r: (Span, Span))
    requires n <= |groups|
    ensures ZeroSpan(groups, r.0) && ZeroSpan(groups, r.1) && (r.0.len > 0 ==> r.0.start + r.0.len == n)
  {
    if n == 0 then (Span(0, 0), Span(0, 0))
    else
      var (current, longest) := ZeroRuns(groups, n - 1);
      if groups[n - 1] != 0 then (Span(0, 0), longest)
      else
        var grown := if current.len == 0 then Span(n - 1, 1) else Span(current.start, current.len + 1);
        (grown, if grown.len > longest.len then grown else longest)
  }

  function Colons(groups: seq<nat>): (r: Bytes)
  {
    if groups == [] then [] else Joined(Texts(groups, 16), COLON)
  }

  predicate MappedV4(groups: seq<nat>)
    requires |groups| == 8
  {
    groups[0] == 0 && groups[1] == 0 && groups[2] == 0 && groups[3] == 0 && groups[4] == 0 && groups[5] == 0xFFFF
  }

  const MAPPED: string := "::ffff:"

  /** The longest run of two or more zero groups is written as two colons. */
  function Ipv6Text(octets: seq<nat>): (r: Bytes)
    requires |octets| == 16
  {
    var groups := Groups(octets);
    var zeros := ZeroRuns(groups, 8).1;
    if MappedV4(groups) then Codes(MAPPED) + Dotted(octets[12..])
    else if zeros.len > 1 then
      Colons(groups[..zeros.start]) + [COLON, COLON] + Colons(groups[zeros.start + zeros.len..])
    else Colons(groups)
  }

  function IpText(ip: IpAddr): (r: Bytes)
  {
    match ip
    case V4(n) => Dotted(Octets(n, 4))
    case V6(n) => Ipv6Text(Octets(n, 16))
  }

  // --------------------------------------------------- addresses are told apart

  lemma DottedInjective(a: seq<nat>, b: seq<nat>)
    requires a != [] && b != [] && Dotted(a) == Dotted(b)
    ensures a == b
  {
    TextsFree(a, 10, DOT);
    TextsFree(b, 10, DOT);
    JoinInjective(Texts(a, 10), Texts(b, 10), DOT);
    TextsInjective(a, b, 10);
  }

  lemma TextsFree(ns: seq<nat>, base: nat, c: int)
    requires 2 <= base <= 16 && !HexCode(c)
    ensures Free(Texts(ns, base), c)
  {
    forall i | 0 <= i < |ns| ensures c !in Texts(ns, base)[i] { TextMeaning(ns[i], base); }
  }

  function Padded(parts: seq<Bytes>): (r: seq<Bytes>)
    ensures r != []
  {
    if parts == [] then [[]] else parts
  }

  /** What stands between the colons of an address. */
  function Parts(octets: seq<nat>): (r: seq<Bytes>)
    requires |octets| == 16
    ensures |r| > 1
  {
    var groups := Groups(octets);
    var zeros := ZeroRuns(groups, 8).1;
    if MappedV4(groups) then [[], [], Codes("ffff"), Dotted(octets[12..])]
    else if zeros.len > 1 then Shortened(groups[..zeros.start], groups[zeros.start + zeros.len..])
    else Texts(groups, 16)
  }

  function Shortened(left: seq<nat>, right: seq<nat>): (r: seq<Bytes>)
    ensures |r| > 1
  {
    Padded(Texts(left, 16)) + ([[]] + Padded(Texts(right, 16)))
  }

  lemma PaddedJoins(groups: seq<nat>)
    ensures Joined(Padded(Texts(groups, 16)), COLON) == Colons(groups)
  {
  }

  lemma ShortenedJoins(left: seq<nat>, right: seq<nat>)
    ensures Joined(Shortened(left, right), COLON) == Colons(left) + [COLON, COLON] + Colons(right)
  {
    var a, b := Padded(Texts(left, 16)), Padded(Texts(right, 16));
    JoinConcat([[]], b, COLON);
    JoinConcat(a, [[]] + b, COLON);
    PaddedJoins(left);
    PaddedJoins(right);
    assert Joined([[]], COLON) == [];
    assert [COLON] + ([] + ([COLON] + Joined(b, COLON))) == [COLON, COLON] + Joined(b, COLON);
  }

  lemma MappedJoins(d: Bytes)
    ensures Joined([[], [], Codes("ffff"), d], COLON) == Codes(MAPPED) + d
  {
    var f := Codes("ffff");
    var parts := [[], [], f, d];
    assert parts[1..] == [[], f, d] && parts[1..][1..] == [f, d] && parts[1..][1..][1..] == [d];
    assert Joined([d], COLON) == d && Joined([f, d], COLON) == f + ([COLON] + d);
    assert Codes(MAPPED) == [COLON, COLON] + f + [COLON];
  }

  lemma PartsJoined(octets: seq<nat>)
    requires |octets| == 16
    ensures Joined(Parts(octets), COLON) == Ipv6Text(octets)
  {
    var groups := Groups(octets);
    var zeros := ZeroRuns(groups, 8).1;
    if MappedV4(groups) {
      MappedJoins(Dotted(octets[12..]));
    } else if zeros.len > 1 {
      ShortenedJoins(groups[..zeros.start], groups[zeros.start + zeros.len..]);
    }
  }

  lemma ShortenedFree(left: seq<nat>, right: seq<nat>, c: int)
    requires !HexCode(c)
    ensures Free(Shortened(left, right), c)
  {
    TextsFree(left, 16, c);
    TextsFree(right, 16, c);
  }

  lemma FourF(c: int)
    requires !HexCode(c)
    ensures c !in Codes("ffff")
  {
    assert Codes("ffff") == ['f' as int, 'f' as int, 'f' as int, 'f' as int];
  }

  lemma DottedFree(octets: seq<nat>, c: int)
    requires octets != [] && !HexCode(c) && c != DOT
    ensures c !in Dotted(octets)
  {
    TextsFree(octets, 10, c);
    JoinFree(Texts(octets, 10), DOT, c);
  }

  lemma PartsFree(octets: seq<nat>, c: int)
    requires |octets| == 16 && !HexCode(c) && c != DOT
    ensures Free(Parts(octets), c)
  {
    var groups := Groups(octets);
    var zeros := ZeroRuns(groups, 8).1;
    DottedFree(octets[12..], c);
    FourF(c);
    TextsFree(groups, 16, c);
    if zeros.len > 1 { ShortenedFree(groups[..zeros.start], groups[zeros.start + zeros.len..], c); }
  }

  /** Only the parts of a mapped address hold a dot. */
  lemma MappedHasDot(octets: seq<nat>)
    requires |octets| == 16
    ensures MappedV4(Groups(octets)) <==> !Free(Parts(octets), DOT)
  {
    var groups := Groups(octets);
    var zeros := ZeroRuns(groups, 8).1;
    if MappedV4(groups) {
      JoinHolds(Texts(octets[12..], 10), DOT);
      assert DOT in Parts(octets)[3];
    } else {
      TextsFree(groups, 16, DOT);
      if zeros.len > 1 { ShortenedFree(groups[..zeros.start], groups[zeros.start + zeros.len..], DOT); }
    }
  }

  ghost predicate NoneEmpty(parts: seq<Bytes>)
  {
    forall i :: 0 <= i < |parts| ==> parts[i] != []
  }

  lemma TextsNoneEmpty(groups: seq<nat>)
    ensures NoneEmpty(Texts(groups, 16))
  {
    forall i | 0 <= i < |groups| ensures Texts(groups, 16)[i] != [] { TextMeaning(groups[i], 16); }
  }

  lemma PaddedInjective(a: seq<nat>, b: seq<nat>)
    requires Padded(Texts(a, 16)) == Padded(Texts(b, 16))
    ensures a == b
  {
    TextsNoneEmpty(a);
    TextsNoneEmpty(b);
    if a == [] {
      assert Padded(Texts(b, 16))[0] == [];
      assert b == [];
    } else {
      assert Padded(Texts(a, 16))[0] != [];
      TextsInjective(a, b, 16);
    }
  }

  /** Where the groups before the zeros end. */
  lemma ShortenedLeft(left: seq<nat>, right: seq<nat>)
    ensures var p := Shortened(left, right);
      if left == [] then p[0] == [] else |left| < |p| && p[|left|] == [] && forall i :: 0 <= i < |left| ==> p[i] != []
  {
    TextsNoneEmpty(left);
  }

  lemma SameLeft(l: seq<nat>, r: seq<nat>, m: seq<nat>, s: seq<nat>)
    requires Shortened(l, r) == Shortened(m, s)
    ensures |l| == |m|
  {
    ShortenedLeft(l, r);
    ShortenedLeft(m, s);
  }

  lemma SplitAround(a: seq<Bytes>, b: seq<Bytes>, c: seq<Bytes>, d: seq<Bytes>, middle: seq<Bytes>)
    requires a + (middle + b) == c + (middle + d) && |a| == |c|
    ensures a == c && b == d
  {
    var x, y := a + (middle + b), c + (middle + d);
    assert a == x[..|a|] && c == y[..|a|];
    assert b == x[|a| + |middle|..] && d == y[|a| + |middle|..];
  }

  lemma ShortenedInjective(l: seq<nat>, r: seq<nat>, m: seq<nat>, s: seq<nat>)
    requires Shortened(l, r) == Shortened(m, s)
    ensures l == m && r == s
  {
    SameLeft(l, r, m, s);
    SplitAround(Padded(Texts(l, 16)), Padded(Texts(r, 16)), Padded(Texts(m, 16)), Padded(Texts(s, 16)), [[]]);
    PaddedInjective(l, m);
    PaddedInjective(r, s);
  }

  lemma SameGroups(a: seq<nat>, x: Span, b: seq<nat>, y: Span)
    requires |a| == |b| && ZeroSpan(a, x) && ZeroSpan(b, y)
    requires a[..x.start] == b[..y.start] && a[x.start + x.len..] == b[y.start + y.len..]
    ensures a == b
  {
    assert |a[..x.start]| == x.start && |b[..y.start]| == y.start;
    assert |a[x.start + x.len..]| == |a| - x.start - x.len;
    assert x == y;
    forall i | 0 <= i < |a| ensures a[i] == b[i] {
      if i < x.start {
        assert a[..x.start][i] == b[..x.start][i];
      } else if i >= x.start + x.len {
        assert a[x.start + x.len..][i - x.start - x.len] == b[x.start + x.len..][i - x.start - x.len];
      }
    }
  }

  lemma GroupsInjective(a: seq<nat>, b: seq<nat>)
    requires |a| == |b| == 16 && Groups(a) == Groups(b)
    requires forall i :: 0 <= i < 16 ==> a[i] < 256 && b[i] < 256
    ensures a == b
  {
    forall i | 0 <= i < 8 ensures a[2 * i] == b[2 * i] && a[2 * i + 1] == b[2 * i + 1] {
      assert Groups(a)[i] == Groups(b)[i];
    }
    forall j | 0 <= j < 16 ensures a[j] == b[j] {
      var i := j / 2;
      assert j == 2 * i || j == 2 * i + 1;
    }
  }

  lemma FullNoneEmpty(octets: seq<nat>)
    requires |octets| == 16 && !MappedV4(Groups(octets))
    ensures ZeroRuns(Groups(octets), 8).1.len > 1 <==> !NoneEmpty(Parts(octets))
  {
    var groups := Groups(octets);
    var zeros := ZeroRuns(groups, 8).1;
    TextsNoneEmpty(groups);
    if zeros.len > 1 { ShortenedLeft(groups[..zeros.start], groups[zeros.start + zeros.len..]); }
  }

  lemma PlainInjective(a: seq<nat>, b: seq<nat>)
    requires |a| == |b| == 16 && !MappedV4(Groups(a)) && !MappedV4(Groups(b)) && Parts(a) == Parts(b)
    ensures Groups(a) == Groups(b)
  {
    var g, h := Groups(a), Groups(b);
    var x, y := ZeroRuns(g, 8).1, ZeroRuns(h, 8).1;
    FullNoneEmpty(a);
    FullNoneEmpty(b);
    if x.len > 1 {
      ShortenedInjective(g[..x.start], g[x.start + x.len..], h[..y.start], h[y.start + y.len..]);
      SameGroups(g, x, h, y);
    } else {
      TextsInjective(g, h, 16);
    }
  }

  lemma MappedInjective(a: seq<nat>, b: seq<nat>)
    requires |a| == |b| == 16 && MappedV4(Groups(a)) && MappedV4(Groups(b)) && Parts(a) == Parts(b)
    ensures Groups(a) == Groups(b)
  {
    assert Dotted(a[12..]) == Parts(a)[3] == Parts(b)[3] == Dotted(b[12..]);
    DottedInjective(a[12..], b[12..]);
    assert forall i :: 12 <= i < 16 ==> a[i] == a[12..][i - 12] && b[i] == b[12..][i - 12];
    forall i | 0 <= i < 8 ensures Groups(a)[i] == Groups(b)[i] {
    }
  }

  lemma Ipv6Injective(a: seq<nat>, b: seq<nat>)
    requires |a| == |b| == 16 && forall i :: 0 <= i < 16 ==> a[i] < 256 && b[i] < 256
    requires Ipv6Text(a) == Ipv6Text(b)
    ensures a == b
  {
    PartsJoined(a);
    PartsJoined(b);
    PartsFree(a, COLON);
    PartsFree(b, COLON);
    JoinInjective(Parts(a), Parts(b), COLON);
    MappedHasDot(a);
    MappedHasDot(b);
    if MappedV4(Groups(a)) { MappedInjective(a, b); } else { PlainInjective(a, b); }
    GroupsInjective(a, b);
  }

  /** The texts of two addresses are different, also across families. */
  lemma IpTextInjective(a: IpAddr, b: IpAddr)
    requires IpText(a) == IpText(b)
    ensures a == b
  {
    FamilyShows(a);
    FamilyShows(b);
    match (a, b) {
      case (V4(m), V4(n)) =>
        DottedInjective(Octets(m, 4), Octets(n, 4));
        assert Power256(4) == 0x1_0000_0000;
        OctetsInjective(m, n, 4);
      case (V6(m), V6(n)) =>
        Ipv6Injective(Octets(m, 16), Octets(n, 16));
        SixteenBytes(m);
        SixteenBytes(n);
        OctetsInjective(m, n, 16);
      case _ =>
    }
  }

  /** An IPv6 text holds a colon, an IPv4 text does not. */
  lemma FamilyShows(ip: IpAddr)
    ensures ip.V6? <==> COLON in IpText(ip)
  {
    match ip {
      case V4(n) => DottedFree(Octets(n, 4), COLON);
      case V6(n) =>
        PartsJoined(Octets(n, 16));
        JoinHolds(Parts(Octets(n, 16)), COLON);
    }
  }

  lemma IpTextFree(ip: IpAddr, c: int)
    requires !HexCode(c) && c != DOT && c != COLON
    ensures c !in IpText(ip)
  {
    match ip {
      case V4(n) => DottedFree(Octets(n, 4), c);
      case V6(n) =>
        PartsJoined(Octets(n, 16));
        PartsFree(Octets(n, 16), c);
        JoinFree(Parts(Octets(n, 16)), COLON, c);
    }
  }

  // ------------------------------------------------------------------- entities

  predicate LowerOrDigit(c: char) { 'a' <= c <= 'z' || '0' <= c <= '9' }

  predicate HostChar(c: char) { LowerOrDigit(c) || c == '-' || c == '_' || c == '.' }

  predicate CertificateChar(c: char) { HostChar(c) || 'A' <= c <= 'Z' || c == ':' }

  /** What a normalized URL is written with. */
  predicate UrlChar(c: char) { '!' <= c <= '~' }

  /** MD5, SHA-1 and SHA-256. */
  function DigestLength(algorithm: nat): (n: nat)
  {
    if algorithm == 0 then 32 else if algorithm == 1 then 40 else 64
  }

  /** The characters and digest lengths the constructors of entities accept. */
  predicate Real(e: Entity)
  {
    match e
    case IndicatorEntity(Domain(name)) => forall i :: 0 <= i < |name| ==> HostChar(name[i])
    case IndicatorEntity(Url(url)) => forall i :: 0 <= i < |url| ==> UrlChar(url[i])
    case IndicatorEntity(FileHash(algorithm, digest)) =>
      algorithm <= 2 && |digest| == DigestLength(algorithm) && forall i :: 0 <= i < |digest| ==> IsHex(digest[i])
    case Certificate(id) => forall i :: 0 <= i < |id| ==> CertificateChar(id[i])
    case _ => true
  }

  /** The display form of an entity. */
  function Shown(e: Entity): (r: Bytes)
  {
    match e
    case IndicatorEntity(Domain(name)) => Codes(name)
    case IndicatorEntity(Ipv4(n)) => IpText(V4(n))
    case IndicatorEntity(Ipv6(n)) => IpText(V6(n))
    case IndicatorEntity(Url(url)) => Codes(url)
    case IndicatorEntity(FileHash(_, digest)) => Codes(digest)
    case AutonomousSystem(n) => Codes("AS") + Text(n, 10)
    case Network(p) => IpText(p.network) + ([SLASH] + Text(p.len, 10))
    case Certificate(id) => Codes(id)
  }

  lemma CodesFree(s: string, c: char)
    requires forall i :: 0 <= i < |s| ==> s[i] != c
    ensures c as int !in Codes(s)
  {
  }

  lemma ShownClean(e: Entity)
    requires Real(e)
    ensures UNIT !in Shown(e)
  {
    match e {
      case IndicatorEntity(Domain(name)) => CodesFree(name, '\U{1f}');
      case IndicatorEntity(Ipv4(n)) => IpTextFree(V4(n), UNIT);
      case IndicatorEntity(Ipv6(n)) => IpTextFree(V6(n), UNIT);
      case IndicatorEntity(Url(url)) => CodesFree(url, '\U{1f}');
      case IndicatorEntity(FileHash(_, digest)) => CodesFree(digest, '\U{1f}');
      case AutonomousSystem(n) =>
        CodesFree("AS", '\U{1f}');
        TextMeaning(n, 10);
      case Network(p) =>
        IpTextFree(p.network, UNIT);
        TextMeaning(p.len, 10);
      case Certificate(id) => CodesFree(id, '\U{1f}');
    }
  }

  lemma NetworksApart(p: IpPrefix, q: IpPrefix)
    requires IpText(p.network) + ([SLASH] + Text(p.len, 10)) == IpText(q.network) + ([SLASH] + Text(q.len, 10))
    ensures p == q
  {
    IpTextFree(p.network, SLASH);
    IpTextFree(q.network, SLASH);
    Unsplit(IpText(p.network), [SLASH] + Text(p.len, 10), IpText(q.network), [SLASH] + Text(q.len, 10), SLASH);
    IpTextInjective(p.network, q.network);
    assert Text(p.len, 10) == ([SLASH] + Text(p.len, 10))[1..] == ([SLASH] + Text(q.len, 10))[1..] == Text(q.len, 10);
    TextInjective(p.len, q.len, 10);
  }

  lemma NumbersApart(m: nat, n: nat)
    requires Codes("AS") + Text(m, 10) == Codes("AS") + Text(n, 10)
    ensures m == n
  {
    var s, t := Codes("AS") + Text(m, 10), Codes("AS") + Text(n, 10);
    assert Text(m, 10) == s[2..] == t[2..] == Text(n, 10);
    TextInjective(m, n, 10);
  }

  lemma HashesApart(a: nat, d: string, b: nat, e: string)
    requires a <= 2 && b <= 2 && |d| == DigestLength(a) && |e| == DigestLength(b) && Codes(d) == Codes(e)
    ensures a == b && d == e
  {
    CodesInjective(d, e);
  }

  /** Two entities of one type are displayed differently. */
  lemma ShownApart(a: Entity, b: Entity)
    requires Real(a) && Real(b) && TypeOf(a) == TypeOf(b) && Shown(a) == Shown(b)
    ensures a == b
  {
    match (a, b) {
      case (IndicatorEntity(Domain(m)), IndicatorEntity(Domain(n))) => CodesInjective(m, n);
      case (IndicatorEntity(Ipv4(m)), IndicatorEntity(Ipv4(n))) => IpTextInjective(V4(m), V4(n));
      case (IndicatorEntity(Ipv6(m)), IndicatorEntity(Ipv6(n))) => IpTextInjective(V6(m), V6(n));
      case (IndicatorEntity(Url(m)), IndicatorEntity(Url(n))) => CodesInjective(m, n);
      case (IndicatorEntity(FileHash(x, d)), IndicatorEntity(FileHash(y, f))) => HashesApart(x, d, y, f);
      case (AutonomousSystem(m), AutonomousSystem(n)) => NumbersApart(m, n);
      case (Network(p), Network(q)) => NetworksApart(p, q);
      case (Certificate(m), Certificate(n)) => CodesInjective(m, n);
      case _ =>
    }
  }

  /** The display form is readable on all entities the constructors can make. */
  lemma ShownReadable(es: set<Entity>)
    requires forall e :: e in es ==> Real(e)
    ensures Readable(Shown, es)
  {
    forall e | e in es ensures UNIT !in Shown(e) { ShownClean(e); }
    forall a, b | a in es && b in es && TypeOf(a) == TypeOf(b) && Shown(a) == Shown(b) ensures a == b { ShownApart(a, b); }
  }
}
