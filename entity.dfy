/** The two stored records. Times are `types.Time` values held as Unix
    milliseconds; coordinates are reals. */
module Entity {
  import opened Wrappers

  const ChainApotheka: string := "Apotheka"
  const ChainSudameapteek: string := "Südameapteek"
  const ChainBenu: string := "Benu"
  const ChainEuroapteek: string := "Euroapteek"
  const ChainKalamaja: string := "Kalamaja"

  /** `time.Time{}.UnixMilli()`: the zero Go time, 1 January of year 1 UTC. */
  const ZeroTimeMillis: int := -62135596800000

  /** A pharmacy row. `id` is the surrogate key (0 before the first insert);
      `pharmacyId` is the chain's own natural key. */
  datatype Pharmacy = Pharmacy(
    id: int,
    pharmacyId: int,
    chain: string,
    name: string,
    address: string,
    city: string,
    county: string,
    postalCode: string,
    email: string,
    phoneNumber: string,
    modTime: int,
    latitude: real,
    longitude: real)

  /** A Go zero-valued `entity.Pharmacy{}`. */
  const EmptyPharmacy: Pharmacy :=
    Pharmacy(0, 0, "", "", "", "", "", "", "", "", ZeroTimeMillis, 0.0, 0.0)

  /** A review row. `nationality` and `text` are nullable; `modificationCode`
      holds the hex SHA-256 of the code handed to the author. */
  datatype Review = Review(
    id: int,
    pharmacyId: int,
    prescriptionType: string,
    stars: int,
    hrtKind: string,
    nationality: Option<string>,
    text: Option<string>,
    createdAt: int,
    updatedAt: int,
    modificationCode: string)
}
