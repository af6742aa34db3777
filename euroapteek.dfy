/** The Euroapteek mapping: entries are keyed by a checksum of their name,
    only entries whose key is not stored yet are kept, and phone numbers are
    normalised to "+372" followed by digits. */
module Euroapteek {
  import opened Wrappers
  import opened Strings
  import opened Seqs
  import opened Entity
  import opened Collaborators
  import opened Reconcile

  /** One scraped entry; every field is still text. */
  datatype EuroEntry = EuroEntry(
    name: string,
    phoneNumber: string,
    address: string,
    city: string,
    county: string,
    latitude: string,
    longitude: string)

  predicate InPhoneClass(c: char) { IsDigit(c) || c == ' ' }

  /** The longest run of digits and spaces starting at `r`. */
  function ClassRun(s: string, r: nat): (run: string)
    requires r <= |s|
    ensures |run| <= |s| - r && run == s[r..r + |run|]
    ensures forall i :: 0 <= i < |run| ==> InPhoneClass(run[i])
    ensures r + |run| == |s| || !InPhoneClass(s[r + |run|])
    decreases |s| - r
  {
    if r < |s| && InPhoneClass(s[r]) then [s[r]] + ClassRun(s, r + 1) else []
  }

  /** The number of spaces starting at `q`. */
  function SpaceCount(s: string, q: nat): (n: nat)
    requires q <= |s|
    ensures q + n <= |s| && (q + n == |s| || s[q + n] != ' ')
    ensures forall i :: q <= i < q + n ==> s[i] == ' '
    decreases |s| - q
  {
    if q < |s| && s[q] == ' ' then 1 + SpaceCount(s, q + 1) else 0
  }

  predicate PrefixAt(s: string, p: nat, prefix: string)
  {
    p + |prefix| <= |s| && s[p..p + |prefix|] == prefix
  }

  /** Group 2 of `(\+372)? *([\d ]+)` when the match starts at `p`: the
      optional "+372", the spaces after it taken greedily, then the greedy run
      of digits and spaces; when no digit follows the spaces, one space is given
      back to the run. */
  function MatchAt(s: string, p: nat): (g: Option<string>)
    requires p <= |s|
    ensures g.Some? ==> g.value != [] && forall i :: 0 <= i < |g.value| ==> InPhoneClass(g.value[i])
    ensures p < |s| && InPhoneClass(s[p]) ==> g.Some?
  {
    var q := if PrefixAt(s, p, "+372") then p + 4 else p;
    var r := q + SpaceCount(s, q);
    if r < |s| && IsDigit(s[r]) then Some(ClassRun(s, r))
    else if r > q then Some(" ")
    else None
  }

  /** The leftmost match at or after `p`. */
  function PhoneGroupFrom(s: string, p: nat): (g: Option<string>)
    requires p <= |s|
    ensures g.Some? ==> g.value != [] && forall i :: 0 <= i < |g.value| ==> InPhoneClass(g.value[i])
    ensures g.Some? <==> exists i :: p <= i < |s| && InPhoneClass(s[i])
    decreases |s| - p
  {
    if p == |s| then None
    else
      match MatchAt(s, p)
      case Some(g) =>
        assert InPhoneClass(s[p]) || InPhoneClass(s[p + 4]);
        Some(g)
      case None => PhoneGroupFrom(s, p + 1)
  }

  /** The phone field: "+372" and the digits of the matched run, or "" when the
      pattern finds nothing. */
  function NormalisePhone(phone: string): (r: string)
    ensures r == [] <==> forall i :: 0 <= i < |phone| ==> !InPhoneClass(phone[i])
    ensures r != [] ==> |r| >= 4 && r[..4] == "+372" && forall i :: 4 <= i < |r| ==> IsDigit(r[i])
  {
    match PhoneGroupFrom(phone, 0)
    case None => ""
    case Some(g) =>
      var digits := RemoveAll(g, ' ');
      assert forall i :: 0 <= i < |digits| ==> IsDigit(digits[i]) by {
        forall i | 0 <= i < |digits| ensures IsDigit(digits[i]) {
          assert digits[i] in g;
        }
      }
      var r := "+372" + digits;
      assert r[..4] == "+372";
      r
  }

  /** A number written with the country code, any spaces after it, and digits
      grouped by spaces comes out as "+372" and the digits. */
  lemma {:induction false} PrefixedPhone(n: nat, body: string)
    requires body != [] && IsDigit(body[0])
    requires forall i :: 0 <= i < |body| ==> InPhoneClass(body[i])
    ensures NormalisePhone("+372" + Spaces(n) + body) == "+372" + RemoveAll(body, ' ')
  {
    var s := "+372" + Spaces(n) + body;
    assert s[0..4] == "+372";
    assert forall i :: 4 <= i < 4 + n ==> s[i] == ' ';
    assert s[4 + n] == body[0];
    assert SpaceCount(s, 4) == n;
    RunToEnd(s, 4 + n);
    assert s[4 + n..] == body;
  }

  /** A run that reaches the end of the text is the whole rest. */
  lemma {:induction false} RunToEnd(s: string, r: nat)
    requires r <= |s| && forall i :: r <= i < |s| ==> InPhoneClass(s[i])
    ensures ClassRun(s, r) == s[r..]
    decreases |s| - r
  {
    if r < |s| {
      RunToEnd(s, r + 1);
    }
  }

  /** A new row for an entry, or nothing when a coordinate does not parse. */
  function NewRow(e: EuroEntry, env: Env): Option<Pharmacy>
  {
    var lat := env.parseFloat32(e.latitude);
    var lng := env.parseFloat32(e.longitude);
    if lat.None? || lng.None? then None
    else
      Some(Pharmacy(
        id := 0,
        pharmacyId := env.crc64(e.name),
        chain := ChainEuroapteek,
        name := e.name,
        address := e.address,
        city := e.city,
        county := e.county,
        postalCode := env.zipCode(e.address + ", " + e.city + ", " + e.county),
        email := "",
        phoneNumber := NormalisePhone(e.phoneNumber),
        modTime := 0,
        latitude := lat.value,
        longitude := lng.value))
  }

  /** An entry whose key is already stored is never written. */
  function EuroDecide(existing: seq<Pharmacy>, env: Env): EuroEntry -> Option<Pharmacy>
  {
    (e: EuroEntry) => if FirstMatch(existing, env.crc64(e.name)).Some? then None else NewRow(e, env)
  }

  /** The mapping loop over the scraped entries. */
  method MapToPharmacies(existing: seq<Pharmacy>, scraped: seq<EuroEntry>, env: Env) returns (pharmacies: seq<Pharmacy>)
    ensures pharmacies == FilterMap(scraped, EuroDecide(existing, env))
  {
    pharmacies := [];
    var i := 0;
    while i < |scraped|
      invariant 0 <= i <= |scraped|
      invariant pharmacies == FilterMap(scraped[..i], EuroDecide(existing, env))
    {
      assert scraped[..i + 1][..i] == scraped[..i];
      var e := scraped[i];
      i := i + 1;
      var k := FindExisting(existing, env.crc64(e.name));
      if k.None? {
        var p := EmptyPharmacy;
        p := p.(pharmacyId := env.crc64(e.name), chain := ChainEuroapteek, name := e.name);
        p := p.(address := e.address, city := e.city, county := e.county);
        p := p.(postalCode := env.zipCode(p.address + ", " + p.city + ", " + p.county));
        p := p.(modTime := 0);
        var lat := env.parseFloat32(e.latitude);
        if lat.None? {
          continue;
        }
        p := p.(latitude := lat.value);
        var lng := env.parseFloat32(e.longitude);
        if lng.None? {
          continue;
        }
        p := p.(longitude := lng.value);
        p := p.(phoneNumber := NormalisePhone(e.phoneNumber));
        pharmacies := pharmacies + [p];
      }
    }
    assert scraped[..|scraped|] == scraped;
  }

  /** Insert only: every output row is new (id 0, epoch modification time),
      keyed by the checksum of its name, absent from the stored rows, and comes
      from an entry with parseable coordinates, in input order; every entry so
      qualified is output. */
  lemma InsertOnly(existing: seq<Pharmacy>, scraped: seq<EuroEntry>, env: Env)
    ensures var out, kept := FilterMap(scraped, EuroDecide(existing, env)), Kept(scraped, EuroDecide(existing, env));
      |out| == |kept| <= |scraped| &&
      (forall j, j' :: 0 <= j < j' < |kept| ==> kept[j] < kept[j']) &&
      (forall j :: 0 <= j < |out| ==>
         (kept[j] < |scraped| &&
          var e, p := scraped[kept[j]], out[j];
          p.id == 0 && p.modTime == 0 && p.chain == ChainEuroapteek && p.name == e.name &&
          p.address == e.address && p.city == e.city && p.county == e.county && p.email == "" &&
          env.parseFloat32(e.latitude).Some? && p.latitude == env.parseFloat32(e.latitude).value &&
          env.parseFloat32(e.longitude).Some? && p.longitude == env.parseFloat32(e.longitude).value &&
          p.pharmacyId == env.crc64(e.name) &&
          (forall k :: 0 <= k < |existing| ==> existing[k].pharmacyId != p.pharmacyId) &&
          p.postalCode == env.zipCode(e.address + ", " + e.city + ", " + e.county) &&
          p.phoneNumber == NormalisePhone(e.phoneNumber))) &&
      (forall i :: 0 <= i < |scraped| ==>
         (i in kept <==> FirstMatch(existing, env.crc64(scraped[i].name)).None? &&
                         env.parseFloat32(scraped[i].latitude).Some? &&
                         env.parseFloat32(scraped[i].longitude).Some?))
  {
    FilterMapKeeps(scraped, EuroDecide(existing, env));
    var kept := Kept(scraped, EuroDecide(existing, env));
    forall i | 0 <= i < |scraped| && i in kept
      ensures FirstMatch(existing, env.crc64(scraped[i].name)).None?
    {
      var j :| 0 <= j < |kept| && kept[j] == i;
    }
  }

  /** The stored rows are only read: two entries of the same name in one batch
      are both inserted. */
  lemma SameNameTwice(existing: seq<Pharmacy>, e: EuroEntry, env: Env)
    requires FirstMatch(existing, env.crc64(e.name)).None? && NewRow(e, env).Some?
    ensures FilterMap([e, e], EuroDecide(existing, env)) == [NewRow(e, env).value, NewRow(e, env).value]
  {
    assert [e, e][..1] == [e];
    assert [e][..0] == [];
  }
}
