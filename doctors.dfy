/**
 * Doctor records as fetched from the listing endpoint, and the normaliser that
 * fills in a missing specialty and a missing consultation mode in place.
 * A `specialty`, `speciality` or `moc` the upstream object lacks (JavaScript
 * `undefined`) is the empty string here: both are the falsy values the code
 * tests those fields for. `name` is always a string.
 */
module Doctors {

  datatype Doctor = Doctor(
    name: string,
    specialty: string,
    speciality: string,   // the alternate spelling some upstream records use
    experience: int,
    fees: int,
    moc: string           // mode of consultation
  )

  /** `doc.specialty || doc.speciality || ''`. */
  function EffectiveSpecialty(d: Doctor): (r: string)
    ensures r == "" <==> d.specialty == "" && d.speciality == ""
    ensures r == d.specialty || r == d.speciality
    ensures d.specialty != "" ==> r == d.specialty
  {
    if d.specialty != "" then d.specialty else d.speciality
  }

  /** The 24 specialties offered as filters and used as defaults, in their listed order. */
  const SPECIALTIES: seq<string> := [
    "General Physician", "Dentist", "Dermatologist", "Paediatrician", "Gynaecologist",
    "ENT", "Diabetologist", "Cardiologist", "Physiotherapist", "Endocrinologist",
    "Orthopaedic", "Ophthalmologist", "Gastroenterologist", "Pulmonologist",
    "Psychiatrist", "Urologist", "Dietitian/Nutritionist", "Psychologist",
    "Sexologist", "Nephrologist", "Neurologist", "Oncologist",
    "Ayurveda", "Homeopath"
  ]

  const VIDEO_CONSULT := "Video Consult"
  const IN_CLINIC := "In Clinic"

  /** `Math.floor(Math.random() * 24)`: an index into SPECIALTIES. */
  type SpecialtyIndex = i: nat | i < 24

  /** The random draws the normaliser may use for one record: the default specialty and
      whether `Math.random() > 0.5` picks a video consultation. */
  datatype Pick = Pick(specialty: SpecialtyIndex, video: bool)

  lemma SpecialtiesNonEmpty()
    ensures |SPECIALTIES| == 24
    ensures forall i :: 0 <= i < |SPECIALTIES| ==> SPECIALTIES[i] != ""
  {
  }

  /** A record the rest of the widget can rely on: some specialty and a mode. */
  predicate Normalized(d: Doctor) {
    EffectiveSpecialty(d) != "" && d.moc != ""
  }

  /** The body of the `forEach` callback, for one record. */
  function NormalizeDoctor(d: Doctor, p: Pick): (r: Doctor)
    ensures Normalized(r)
    ensures r.name == d.name && r.experience == d.experience && r.fees == d.fees
    ensures r.speciality == d.speciality
    ensures d.specialty != "" || d.speciality != "" ==> r.specialty == d.specialty
    ensures d.specialty == "" && d.speciality == "" ==>
              r.specialty == SPECIALTIES[p.specialty] && r.specialty in SPECIALTIES
    ensures d.moc != "" ==> r.moc == d.moc
    ensures d.moc == "" ==> (r.moc == VIDEO_CONSULT <==> p.video) && r.moc in {VIDEO_CONSULT, IN_CLINIC}
  {
    SpecialtiesNonEmpty();
    var withSpecialty :=
      if d.specialty == "" && d.speciality == "" then d.(specialty := SPECIALTIES[p.specialty]) else d;
    if withSpecialty.moc == "" then
      withSpecialty.(moc := if p.video then VIDEO_CONSULT else IN_CLINIC)
    else
      withSpecialty
  }

  /** Normalising is a no-op on a record that is already normal, whatever is drawn. */
  lemma NormalizeNormalized(d: Doctor, p: Pick)
    requires Normalized(d)
    ensures NormalizeDoctor(d, p) == d
  {
  }

  /** `data.forEach(doc => { ... })`: every record of the fetched array is normalised in
      place, the i-th with the i-th draws. */
  method NormalizeAll(data: array<Doctor>, picks: seq<Pick>)
    requires |picks| == data.Length
    modifies data
    ensures forall i :: 0 <= i < data.Length ==> data[i] == NormalizeDoctor(old(data[i]), picks[i])
    ensures forall i :: 0 <= i < data.Length ==> Normalized(data[i])
  {
    ghost var fetched := data[..];
    for i := 0 to data.Length
      invariant forall k :: 0 <= k < i ==> data[k] == NormalizeDoctor(fetched[k], picks[k])
      invariant forall k :: i <= k < data.Length ==> data[k] == fetched[k]
      invariant forall k :: 0 <= k < i ==> Normalized(data[k])
    {
      var d := NormalizeDoctor(data[i], picks[i]);
      data[i] := d;
    }
  }
}
