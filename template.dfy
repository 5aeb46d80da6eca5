/**
 * `generatePrescriptionHTML` of server/utils/prescriptionTemplate.ts: the
 * older server-side page, with its inner `calculateAge` that counts years
 * of 365 days.
 *
 * The moment of rendering (`Date.now()`) and the birth date
 * (`new Date(dob).getTime()`) are given as millisecond timestamps.
 */
module ServerTemplate {
  import opened Wrappers
  import opened Text
  import Render

  datatype Doctor = Doctor(
    firstName: string, lastName: string, specialization: Option<string>, medicalLicenseId: Option<string>)

  /** The patient; `dateOfBirth` is the timestamp of the parsed birth date. */
  datatype Patient = Patient(firstName: string, lastName: string, phone: string, dateOfBirth: int)

  /** The argument of `generatePrescriptionHTML` (lines 1-22). */
  datatype TemplateData = TemplateData(
    doctor: Doctor, patient: Patient, medicines: seq<Render.Medicine>, date: string)

  // Age in years of 365 days (lines 23-27).

  const YearMs: nat := 1000 * 60 * 60 * 24 * 365

  /** `Math.floor((now - dob) / YearMs)`; Dafny's `/` by a positive divisor rounds down. */
  function Age365(now: int, dob: int): (r: int)
    ensures r * YearMs <= now - dob < (r + 1) * YearMs
  {
    (now - dob) / YearMs
  }

  /** No other count of years brackets the elapsed time. */
  lemma Age365Unique(now: int, dob: int, n: int)
    requires n * YearMs <= now - dob < (n + 1) * YearMs
    ensures n == Age365(now, dob)
  {
  }

  /** The age is non-negative exactly when the birth is not after the moment of rendering. */
  lemma Age365NonNegative(now: int, dob: int)
    ensures Age365(now, dob) >= 0 <==> dob <= now
  {
  }

  /** A later moment never gives a smaller age. */
  lemma Age365Monotone(earlier: int, later: int, dob: int)
    requires earlier <= later
    ensures Age365(earlier, dob) <= Age365(later, dob)
  {
  }

  /** Exactly 365 days after the birth the age becomes one more. */
  lemma Age365Step(now: int, dob: int)
    ensures Age365(now + YearMs, dob) == Age365(now, dob) + 1
  {
  }

  // The page (lines 29-94).

  /** `value || fallback` on an optional string: the fallback for a missing or empty value. */
  function OrElse(value: Option<string>, fallback: string): (r: string)
    ensures fallback != "" ==> r != ""
  {
    if Render.Truthy(value) then value.value else fallback
  }

  /** `||` keeps a present non-empty value and gives the fallback for a missing or empty one. */
  lemma OrElseChoice(value: Option<string>, fallback: string)
    ensures value.Some? && value.value != "" ==> OrElse(value, fallback) == value.value
    ensures value.None? || value.value == "" ==> OrElse(value, fallback) == fallback
  {
  }

  /** The fixed text between the substituted values; `ServerMarkup` is the text of the source. */
  datatype Markup = Markup(
    head: string, headerClose: string, licenseOpen: string, patientOpen: string, ageOpen: string,
    years: string, phoneOpen: string, dateOpen: string, prescriptionOpen: string,
    prescriptionClose: string, pageClose: string,
    itemOpen: string, frequencyOpen: string, durationOpen: string, instructionsOpen: string,
    itemClose: string)

  // The rules of the style sheet (lines 34-55) are not part of this model.
  const ServerMarkup := Markup(
    head := "\n<!DOCTYPE html>\n<html>\n<head>\n  <meta charset=\"UTF-8\" />\n  <style>\n  </style>\n</head>\n<body>\n\n<h1>",
    headerClose := "</h1>\n<p style=\"text-align:center\">\n  ",
    licenseOpen := " <br/>\n  License: ",
    patientOpen := "\n</p>\n\n<div class=\"section box\">\n  <strong>Patient:</strong> ",
    ageOpen := "<br/>\n  <strong>Age:</strong> ",
    years := " years",
    phoneOpen := "<br/>\n  <strong>Phone:</strong> ",
    dateOpen := "<br/>\n  <strong>Date:</strong> ",
    prescriptionOpen := "\n</div>\n\n<div class=\"section box\">\n  <h3>℞ Prescription</h3>\n  ",
    prescriptionClose :=
      "\n</div>\n\n<div class=\"section\" style=\"text-align:right; margin-top:50px\">\n" +
      "  <div style=\"border-top:1px solid #999; width:200px; margin-left:auto\"></div>\n  ",
    pageClose := "\n</div>\n\n</body>\n</html>\n",
    itemOpen := "\n      <div class=\"medicine\">\n        <strong>",
    frequencyOpen := "</strong><br/>\n        ",
    durationOpen := " • ",
    instructionsOpen := "<br/>\n        ",
    itemClose := "\n      </div>\n    ")

  /** The item of medicine `m` at index `i` (lines 76-82). */
  function ItemPieces(t: Markup, m: Render.Medicine, i: nat): (r: seq<string>)
    ensures |r| == 13
  {
    [ t.itemOpen, NatToString(i + 1), ". ", m.name, " ", m.dosage,                    // 1-5
      t.frequencyOpen, m.frequency, t.durationOpen, m.duration,
      t.instructionsOpen, Render.InstructionsElement(m.instructions), t.itemClose ]   // 11
  }

  function MedicineItem(t: Markup, m: Render.Medicine, i: nat): string {
    Concat(ItemPieces(t, m, i))
  }

  /** `data.medicines.map((m, i) => ...)` (lines 74-83) */
  function Items(t: Markup, medicines: seq<Render.Medicine>): (r: seq<string>)
    ensures |r| == |medicines|
    ensures forall k :: 0 <= k < |medicines| ==> r[k] == MedicineItem(t, medicines[k], k)
  {
    seq(|medicines|, k requires 0 <= k < |medicines| => MedicineItem(t, medicines[k], k))
  }

  /** The heading, the specialty and the license (lines 59-63). */
  function HeaderPieces(t: Markup, d: Doctor): (r: seq<string>)
    ensures |r| == 9
  {
    [ t.head, "Dr. ", d.firstName, " ", d.lastName, t.headerClose,                   // 1-4
      OrElse(d.specialization, "MD"), t.licenseOpen, OrElse(d.medicalLicenseId, "N/A") ] // 6, 8
  }

  /** The patient box (lines 65-70). */
  function PatientPieces(t: Markup, p: Patient, date: string, now: int): (r: seq<string>)
    ensures |r| == 11
  {
    [ t.patientOpen, p.firstName, " ", p.lastName,
      t.ageOpen, IntToString(Age365(now, p.dateOfBirth)), t.years,                    // 5-6
      t.phoneOpen, p.phone, t.dateOpen, date ]
  }

  /** The signature (lines 87-94). */
  function FooterPieces(t: Markup, d: Doctor): (r: seq<string>)
    ensures |r| == 5
  {
    [ "Dr. ", d.firstName, " ", d.lastName, t.pageClose ]                             // 0-3
  }

  function PageSections(t: Markup, data: TemplateData, now: int): (r: seq<string>)
    ensures |r| == 4
  {
    [ Concat(HeaderPieces(t, data.doctor)),
      Concat(PatientPieces(t, data.patient, data.date, now)),
      t.prescriptionOpen + Concat(Items(t, data.medicines)) + t.prescriptionClose,     // lines 72-90
      Concat(FooterPieces(t, data.doctor)) ]
  }

  function Page(t: Markup, data: TemplateData, now: int): string {
    Concat(PageSections(t, data, now))
  }

  /** `generatePrescriptionHTML(data)` at the moment `now`. */
  function GeneratePrescriptionHTML(data: TemplateData, now: int): string {
    Page(ServerMarkup, data, now)
  }

  // What the page shows, whatever its fixed text.

  lemma InSection(t: Markup, data: TemplateData, now: int, k: nat, x: string, q: nat)
    requires k < 4 && OccursAt(PageSections(t, data, now)[k], x, q)
    ensures OccursAt(Page(t, data, now), x, Offset(PageSections(t, data, now), k) + q)
  {
    var sections := PageSections(t, data, now);
    ConcatPieceOccurs(sections, k);
    OccursTrans(Page(t, data, now), sections[k], Offset(sections, k), x, q);
  }

  /** The numbered heading of an item stands inside the item. */
  lemma LabelInItem(t: Markup, m: Render.Medicine, i: nat)
    ensures OccursAt(MedicineItem(t, m, i), Render.Label(m, i), Offset(ItemPieces(t, m, i), 1))
    ensures Offset(ItemPieces(t, m, i), 1) + |Render.Label(m, i)| <= |MedicineItem(t, m, i)|
  {
    var ps := ItemPieces(t, m, i);
    ConcatRun5(ps, 1);
    OffsetMonotone(ps, 6, 13);
    OffsetEnd(ps);
  }

  /** Where the heading of medicine `k` stands in the page. */
  function LabelOffset(t: Markup, data: TemplateData, now: int, k: nat): nat
    requires k < |data.medicines|
  {
    Offset(PageSections(t, data, now), 2) + |t.prescriptionOpen| + Offset(Items(t, data.medicines), k) +
    Offset(ItemPieces(t, data.medicines[k], k), 1)
  }

  /** Medicine `k` appears as `k+1. name dosage`, in the order of the list (lines 74-84). */
  lemma MedicinesNumberedInOrder(t: Markup, data: TemplateData, now: int, k: nat)
    requires k < |data.medicines|
    ensures OccursAt(Page(t, data, now), Render.Label(data.medicines[k], k), LabelOffset(t, data, now, k))
    ensures k + 1 < |data.medicines| ==>
      LabelOffset(t, data, now, k) + |Render.Label(data.medicines[k], k)| <= LabelOffset(t, data, now, k + 1)
  {
    var ms := data.medicines;
    var items := Items(t, ms);
    var heading := Render.Label(ms[k], k);
    var inItem := Offset(ItemPieces(t, ms[k], k), 1);
    ConcatPieceOccurs(items, k);
    LabelInItem(t, ms[k], k);
    OccursTrans(Concat(items), items[k], Offset(items, k), heading, inItem);
    OccursInMiddle(t.prescriptionOpen, Concat(items), t.prescriptionClose);
    OccursTrans(PageSections(t, data, now)[2], Concat(items), |t.prescriptionOpen|, heading, Offset(items, k) + inItem);
    InSection(t, data, now, 2, heading, |t.prescriptionOpen| + Offset(items, k) + inItem);
  }

  /** Given instructions appear in an `<em>` element of their medicine's item (line 80). */
  lemma InstructionsShown(t: Markup, m: Render.Medicine, i: nat)
    requires Render.Truthy(m.instructions)
    ensures OccursAt(MedicineItem(t, m, i), "<em>" + m.instructions.value + "</em>", Offset(ItemPieces(t, m, i), 11))
  {
    ConcatPieceOccurs(ItemPieces(t, m, i), 11);
  }

  /** The `<em>` element adds the instructions and its tags when they are non-empty, and nothing otherwise. */
  lemma InstructionsLength(t: Markup, m: Render.Medicine, i: nat)
    ensures |MedicineItem(t, m, i)| ==
      |MedicineItem(t, m.(instructions := None), i)| + if Render.Truthy(m.instructions) then |m.instructions.value| + 9 else 0
  {
    ConcatReplaceLength(ItemPieces(t, m, i), ItemPieces(t, m.(instructions := None), i), 11);
  }

  /** Where the specialty and the license stand in the page. */
  function SpecialtyOffset(t: Markup, data: TemplateData, now: int): nat {
    Offset(PageSections(t, data, now), 0) + Offset(HeaderPieces(t, data.doctor), 6)
  }

  /**
   * The specialty is shown when it is non-empty and "MD" otherwise; the
   * license number likewise, with "N/A" (lines 61-62).
   */
  lemma DefaultsShown(t: Markup, data: TemplateData, now: int)
    ensures var d := data.doctor;
      OccursAt(Page(t, data, now),
               (if Render.Truthy(d.specialization) then d.specialization.value else "MD") + t.licenseOpen +
               (if Render.Truthy(d.medicalLicenseId) then d.medicalLicenseId.value else "N/A"),
               SpecialtyOffset(t, data, now))
  {
    var header := HeaderPieces(t, data.doctor);
    ConcatRun3(header, 6);
    InSection(t, data, now, 0, header[6] + header[7] + header[8], Offset(header, 6));
  }

  /** Where the age stands in the page. */
  function AgeOffset(t: Markup, data: TemplateData, now: int): nat {
    Offset(PageSections(t, data, now), 1) + Offset(PatientPieces(t, data.patient, data.date, now), 5)
  }

  /** The age in years of 365 days, followed by "years" (line 67). */
  lemma AgeShown(t: Markup, data: TemplateData, now: int)
    ensures OccursAt(Page(t, data, now), IntToString(Age365(now, data.patient.dateOfBirth)) + t.years,
                     AgeOffset(t, data, now))
  {
    var patient := PatientPieces(t, data.patient, data.date, now);
    ConcatRun2(patient, 5);
    InSection(t, data, now, 1, patient[5] + patient[6], Offset(patient, 5));
  }

  /** Where the doctor is named in the heading and in the signature. */
  function HeaderNameOffset(t: Markup, data: TemplateData, now: int): nat {
    Offset(PageSections(t, data, now), 0) + Offset(HeaderPieces(t, data.doctor), 1)
  }

  function SignatureNameOffset(t: Markup, data: TemplateData, now: int): nat {
    Offset(PageSections(t, data, now), 3)
  }

  /** The heading's naming of the doctor ends before the signature's begins. */
  lemma HeaderNameFirst(t: Markup, data: TemplateData, now: int)
    ensures HeaderNameOffset(t, data, now) + |"Dr. " + data.doctor.firstName + " " + data.doctor.lastName|
      <= SignatureNameOffset(t, data, now)
  {
    var sections := PageSections(t, data, now);
    var header := HeaderPieces(t, data.doctor);
    ConcatRun4(header, 1);
    OffsetMonotone(header, 5, 9);
    OffsetEnd(header);
    ConcatPieceOccurs(sections, 0);
    OffsetMonotone(sections, 1, 3);
  }

  /** The doctor is named in the heading (line 59) and again in the signature (line 89). */
  lemma DoctorNamedTwice(t: Markup, data: TemplateData, now: int)
    ensures var name := "Dr. " + data.doctor.firstName + " " + data.doctor.lastName;
      OccursAt(Page(t, data, now), name, HeaderNameOffset(t, data, now)) &&
      OccursAt(Page(t, data, now), name, SignatureNameOffset(t, data, now)) &&
      HeaderNameOffset(t, data, now) + |name| <= SignatureNameOffset(t, data, now)
  {
    var header := HeaderPieces(t, data.doctor);
    var footer := FooterPieces(t, data.doctor);
    ConcatRun4(header, 1);
    ConcatRun4(footer, 0);
    InSection(t, data, now, 0, header[1] + header[2] + header[3] + header[4], Offset(header, 1));
    assert Offset(footer, 0) == 0;
    InSection(t, data, now, 3, footer[0] + footer[1] + footer[2] + footer[3], 0);
    HeaderNameFirst(t, data, now);
  }

  // The page of the source.

  /** An empty specialization gives "MD" here, where the shared page keeps it empty. */
  lemma EmptySpecialtyDiffers()
    ensures OrElse(Some(""), "MD") == "MD" && Render.Specialty(Some("")) == ""
  {
  }

  /** Without a specialization and a license the generated page shows "MD" and "N/A" beneath the heading (lines 61-62). */
  lemma GeneratedDefaults(data: TemplateData, now: int)
    requires !Render.Truthy(data.doctor.specialization) && !Render.Truthy(data.doctor.medicalLicenseId)
    ensures Contains(GeneratePrescriptionHTML(data, now), "MD <br/>\n  License: N/A")
  {
    DefaultsShown(ServerMarkup, data, now);
    DefaultLicenseLine();
    assert OccursAt(Page(ServerMarkup, data, now), "MD <br/>\n  License: N/A", SpecialtyOffset(ServerMarkup, data, now));
  }

  lemma DefaultLicenseLine()
    ensures "MD" + ServerMarkup.licenseOpen + "N/A" == "MD <br/>\n  License: N/A"
  {
  }
}
