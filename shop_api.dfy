/** The JSON shop feed shared by Apotheka and Südameapteek, and its mapping to
    pharmacy rows. */
module ShopApi {
  import opened Wrappers
  import opened Strings
  import opened Numbers
  import opened Seqs
  import opened Entity
  import opened Collaborators

  /** One item of the feed. `updatedAt` is free text; coordinates are as decoded. */
  datatype Shop = Shop(
    shopId: string,
    name: string,
    city: string,
    county: string,
    address: string,
    email: string,
    phone: string,
    updatedAt: string,
    latitude: real,
    longitude: real)

  /** The street part of a feed address: its first comma-separated segment,
      with surrounding spaces trimmed. */
  function StreetOf(address: string): string
  {
    Trim(Split(address, ',')[0], {' '})
  }

  /** One item's row, or nothing when its shop id is not a base-10 int64. */
  function MapShop(s: Shop, chain: string, env: Env): Option<Pharmacy>
  {
    var pid := ParseInt(s.shopId);
    if pid.err.Some? then None
    else
      Some(Pharmacy(
        id := 0,
        pharmacyId := pid.value,
        chain := chain,
        name := s.name,
        address := StreetOf(s.address),
        city := s.city,
        county := s.county,
        postalCode := env.zipCode(s.address),
        email := s.email,
        phoneNumber := "+372" + s.phone,
        modTime := env.parseTime(s.updatedAt).GetOr(ZeroTimeMillis),
        latitude := s.latitude,
        longitude := s.longitude))
  }

  function ShopStep(chain: string, env: Env): Shop -> Option<Pharmacy>
  {
    s => MapShop(s, chain, env)
  }

  /** The rows for a whole feed, in feed order. */
  function ShopsToPharmacies(shops: seq<Shop>, chain: string, env: Env): seq<Pharmacy>
  {
    FilterMap(shops, ShopStep(chain, env))
  }

  /** One more item extends the rows by that item's row, if it has one. */
  lemma ShopsSnoc(shops: seq<Shop>, i: nat, chain: string, env: Env)
    requires i < |shops|
    ensures ShopsToPharmacies(shops[..i + 1], chain, env) ==
            ShopsToPharmacies(shops[..i], chain, env) +
            (if MapShop(shops[i], chain, env).Some? then [MapShop(shops[i], chain, env).value] else [])
  {
    assert shops[..i + 1][..i] == shops[..i];
  }

  /** The mapping loop: items whose id does not parse are skipped, every other
      item appends one row. */
  method MapShopsToPharmacies(shops: seq<Shop>, chain: string, env: Env) returns (pharmacies: seq<Pharmacy>)
    ensures pharmacies == ShopsToPharmacies(shops, chain, env)
  {
    pharmacies := [];
    var i := 0;
    while i < |shops|
      invariant 0 <= i <= |shops|
      invariant pharmacies == ShopsToPharmacies(shops[..i], chain, env)
    {
      ShopsSnoc(shops, i, chain, env);
      var pid := ParseInt(shops[i].shopId);
      if pid.err.Some? {
        assert MapShop(shops[i], chain, env) == None;
        i := i + 1;
        continue;
      }
      var p := EmptyPharmacy;
      p := p.(pharmacyId := pid.value, chain := chain, name := shops[i].name);
      var parts := Split(shops[i].address, ',');
      if |parts| > 0 {
        p := p.(address := Trim(parts[0], {' '}));
      } else {
        // strings.Split never returns an empty slice
        assert false;
      }
      p := p.(city := shops[i].city, county := shops[i].county);
      p := p.(postalCode := env.zipCode(shops[i].address), email := shops[i].email);
      p := p.(phoneNumber := "+372" + shops[i].phone);
      var ts := env.parseTime(shops[i].updatedAt);
      if ts.Some? {
        p := p.(modTime := ts.value);
      }
      p := p.(latitude := shops[i].latitude, longitude := shops[i].longitude);
      assert MapShop(shops[i], chain, env) == Some(p);
      pharmacies := pharmacies + [p];
      i := i + 1;
    }
    assert shops[..|shops|] == shops;
  }

  /** What each produced row holds: exactly the items with a parseable id
      produce rows, in feed order, each carrying the parsed id, the chain, the
      copied text fields, the street part of the address, the prefixed phone,
      the looked-up postal code, the parsed timestamp (or the zero time) and
      the unchanged coordinates. */
  lemma ShopRows(shops: seq<Shop>, chain: string, env: Env)
    ensures var out, kept := ShopsToPharmacies(shops, chain, env), Kept(shops, ShopStep(chain, env));
      |out| == |kept| &&
      (forall j, j' :: 0 <= j < j' < |kept| ==> kept[j] < kept[j']) &&
      (forall i :: 0 <= i < |shops| ==> (i in kept <==> ParseInt(shops[i].shopId).err.None?)) &&
      (forall j :: 0 <= j < |kept| ==>
         (kept[j] < |shops| &&
          var s, p := shops[kept[j]], out[j];
          p.id == 0 && p.pharmacyId == ParseInt(s.shopId).value && p.chain == chain &&
          p.name == s.name && p.city == s.city && p.county == s.county && p.email == s.email &&
          p.address == StreetOf(s.address) && p.postalCode == env.zipCode(s.address) &&
          p.phoneNumber == "+372" + s.phone &&
          (env.parseTime(s.updatedAt).Some? ==> p.modTime == env.parseTime(s.updatedAt).value) &&
          (env.parseTime(s.updatedAt).None? ==> p.modTime == ZeroTimeMillis) &&
          p.latitude == s.latitude && p.longitude == s.longitude))
  {
    var f := ShopStep(chain, env);
    FilterMapKeeps(shops, f);
    var kept := Kept(shops, f);
    forall i | 0 <= i < |shops| && i in kept
      ensures ParseInt(shops[i].shopId).err.None?
    {
      var j :| 0 <= j < |kept| && kept[j] == i;
    }
  }

  /** The street is the text before the first comma (all of it when there is
      none) without the spaces around it. */
  lemma StreetIsFirstSegment(address: string, i: nat)
    requires i <= |address| && ',' !in address[..i] && (i == |address| || address[i] == ',')
    ensures StreetOf(address) == Trim(address[..i], {' '})
  {
    SplitFirst(address, ',', i);
  }

  /** Whatever follows the first comma (city, county, postal code) never
      reaches the street field. */
  lemma StreetIgnoresTail(street: string, tail: string)
    requires ',' !in street
    ensures StreetOf(street + [','] + tail) == Trim(street, {' '})
  {
    var a := street + [','] + tail;
    assert a[..|street|] == street;
    StreetIsFirstSegment(a, |street|);
  }
}
