/**
 * `renderPrescriptionHTML` of shared/prescription/renderPrescriptionHTML.ts:
 * the printable prescription page, a template literal over a
 * `PrescriptionData` record, with its inner `calculateAge`.
 *
 * Dates are given as their (year, month, day) components; "today" is a
 * parameter instead of the clock.
 */
module Render {
  import opened Wrappers
  import opened Text

  /** The components `getFullYear`, `getMonth` and `getDate` of a date. */
  datatype Date = Date(year: int, month: int, day: int)

  datatype Doctor = Doctor(
    firstName: string, lastName: string, specialization: Option<string>, medicalLicenseId: string)

  datatype Patient = Patient(firstName: string, lastName: string, phone: string, dateOfBirth: Date)

  datatype Medicine = Medicine(
    name: string, dosage: string, frequency: string, duration: string, instructions: Option<string>)

  /** `PrescriptionData` of shared/prescription/types.ts */
  datatype PrescriptionData = PrescriptionData(
    doctor: Doctor, patient: Patient, medicines: seq<Medicine>, additionalNotes: string, date: string)

  // Age in completed years (lines 4-16).

  /** Calendar order of dates. */
  predicate OnOrBefore(a: Date, b: Date) {
    a.year < b.year ||
    (a.year == b.year && (a.month < b.month || (a.month == b.month && a.day <= b.day)))
  }

  /** The `n`-th birthday. */
  function Anniversary(birth: Date, n: int): Date {
    Date(birth.year + n, birth.month, birth.day)
  }

  /** `calculateAge` as an expression: the year difference, less one before this year's birthday. */
  function Age(today: Date, birth: Date): int {
    var monthDiff := today.month - birth.month;
    if monthDiff < 0 || (monthDiff == 0 && today.day < birth.day) then today.year - birth.year - 1
    else today.year - birth.year
  }

  /** `calculateAge(dateOfBirth)` with `new Date()` read as `today`. */
  method CalculateAge(today: Date, birthDate: Date) returns (age: int)
    ensures age == Age(today, birthDate)
  {
    age := today.year - birthDate.year;
    var monthDiff := today.month - birthDate.month;
    if monthDiff < 0 || (monthDiff == 0 && today.day < birthDate.day) {
      age := age - 1;
    }
  }

  /** The age is the number of birthdays that have come by `today`. */
  lemma AgeIsCompletedYears(today: Date, birth: Date)
    ensures OnOrBefore(Anniversary(birth, Age(today, birth)), today)
    ensures !OnOrBefore(Anniversary(birth, Age(today, birth) + 1), today)
  {
  }

  /** Birthdays come in order. */
  lemma AnniversaryMonotone(birth: Date, m: int, n: int, today: Date)
    requires m <= n && OnOrBefore(Anniversary(birth, n), today)
    ensures OnOrBefore(Anniversary(birth, m), today)
  {
  }

  /** No other count of years has that property. */
  lemma AgeUnique(today: Date, birth: Date, n: int)
    requires OnOrBefore(Anniversary(birth, n), today) && !OnOrBefore(Anniversary(birth, n + 1), today)
    ensures n == Age(today, birth)
  {
    AgeIsCompletedYears(today, birth);
    var a := Age(today, birth);
    if n < a {
      AnniversaryMonotone(birth, n + 1, a, today);
    } else if n > a {
      AnniversaryMonotone(birth, a + 1, n, today);
    }
  }

  /** The age is non-negative exactly when the birth date is not in the future. */
  lemma AgeNonNegative(today: Date, birth: Date)
    ensures Age(today, birth) >= 0 <==> OnOrBefore(birth, today)
  {
    AgeIsCompletedYears(today, birth);
    assert Anniversary(birth, 0) == birth;
    if OnOrBefore(birth, today) && Age(today, birth) < 0 {
      AnniversaryMonotone(birth, Age(today, birth) + 1, 0, today);
    }
  }

  lemma AgeBornToday(today: Date)
    ensures Age(today, today) == 0
  {
  }

  /** A later day never gives a smaller age. */
  lemma AgeMonotone(earlier: Date, later: Date, birth: Date)
    requires OnOrBefore(earlier, later)
    ensures Age(earlier, birth) <= Age(later, birth)
  {
    AgeIsCompletedYears(earlier, birth);
    AgeIsCompletedYears(later, birth);
  }

  // The page (lines 18-259).

  /**
   * The fixed text between the substituted values of the page. The page is
   * defined for any such text and `ClientMarkup` is the text of the source.
   */
  datatype Markup = Markup(
    head: string, headerClose: string, specialtyOpen: string, specialtyClose: string,
    licenseOpen: string, patientOpen: string, ageOpen: string, years: string,
    phoneOpen: string, dateOpen: string, prescriptionOpen: string, prescriptionClose: string,
    footerOpen: string, signatureOpen: string, pageClose: string,
    itemOpen: string, frequencyOpen: string, durationOpen: string, instructionsOpen: string,
    itemClose: string)

  // The rules of the style sheet (lines 25-190) are not part of this model.
  const ClientMarkup := Markup(
    head :=
      "\n<!DOCTYPE html>\n<html lang=\"en\">\n<head>\n<meta charset=\"UTF-8\" />\n" +
      "<title>Medical Prescription</title>\n    <style>\n    </style>\n</head>\n\n<body>\n" +
      "  <div class=\"header\">\n    <h1 class=\"doctor-name\">\n      ",
    headerClose := "\n    </h1>\n    ",
    specialtyOpen := "<p class=\"doctor-specialty\">",
    specialtyClose := "</p>",
    licenseOpen := "\n    <p class=\"license-info\">\n      Medical License: ",
    patientOpen :=
      "\n    </p>\n  </div>\n\n  <div class=\"patient-section\">\n" +
      "    <h2 class=\"section-title\">Patient Information</h2>\n    <div class=\"patient-info\">\n" +
      "      <div>\n        <strong>Patient:</strong>\n        ",
    ageOpen := "\n      </div>\n      <div>\n        <strong>Age:</strong>\n        ",
    years := " years",
    phoneOpen := "\n      </div>\n      <div>\n        <strong>Phone:</strong>\n        ",
    dateOpen := "\n      </div>\n      <div>\n        <strong>Date:</strong>\n        ",
    prescriptionOpen :=
      "\n      </div>\n    </div>\n  </div>\n\n  <div class=\"prescription-section\">\n" +
      "    <h2 class=\"section-title\">℞ Prescription</h2>\n\n    ",
    prescriptionClose := "\n  </div>\n\n  ",
    footerOpen := "\n\n  <div class=\"footer\">\n    <div>Date Issued: ",
    signatureOpen := "</div>\n    <div>",
    pageClose := "</div>\n  </div>\n</body>\n</html>\n",
    itemOpen := "\n        <div class=\"medicine-item\">\n          <div class=\"medicine-name\">\n            ",
    frequencyOpen := "\n          </div>\n          <div>\n            Frequency: ",
    durationOpen := " • Duration: ",
    instructionsOpen := "\n          </div>\n          ",
    itemClose := "\n        </div>\n      ")

  /** A JavaScript truthiness test of an optional string. */
  predicate Truthy(o: Option<string>) {
    o.Some? && o.value != ""
  }

  /** `${m.instructions ? `<em>${m.instructions}</em>` : ""}` (line 240) */
  function InstructionsElement(instructions: Option<string>): string {
    if Truthy(instructions) then "<em>" + instructions.value + "</em>" else ""
  }

  /** The pieces of the item of medicine `m` at index `i` (lines 232-242). */
  function ItemPieces(t: Markup, m: Medicine, i: nat): (r: seq<string>)
    ensures |r| == 13
  {
    [ t.itemOpen, NatToString(i + 1), ". ", m.name, " ", m.dosage,
      t.frequencyOpen, m.frequency, t.durationOpen, m.duration,
      t.instructionsOpen, InstructionsElement(m.instructions), t.itemClose ]
  }

  function MedicineItem(t: Markup, m: Medicine, i: nat): string {
    Concat(ItemPieces(t, m, i))
  }

  /** `${i + 1}. ${m.name} ${m.dosage}` (line 235): the numbered heading of an item. */
  function Label(m: Medicine, i: nat): string {
    NatToString(i + 1) + ". " + m.name + " " + m.dosage
  }

  /** `data.medicines.map((m, i) => ...)` (lines 230-243) */
  function Items(t: Markup, medicines: seq<Medicine>): (r: seq<string>)
    ensures |r| == |medicines|
    ensures forall k :: 0 <= k < |medicines| ==> r[k] == MedicineItem(t, medicines[k], k)
  {
    seq(|medicines|, k requires 0 <= k < |medicines| => MedicineItem(t, medicines[k], k))
  }

  /** `data.doctor.specialization ?? "MD"` (line 199) */
  function Specialty(specialization: Option<string>): string {
    match specialization
    case None => "MD"
    case Some(s) => s
  }

  /** Lines 247-251. */
  function NotesSection(notes: string): string {
    if notes != "" then "<div class=\"notes-section\">" + notes + "</div>" else ""
  }

  /** The header: the doctor, the specialty and the license (lines 195-203). */
  function HeaderPieces(t: Markup, d: Doctor): (r: seq<string>)
    ensures |r| == 11
  {
    [ t.head, "Dr. ", d.firstName, " ", d.lastName, t.headerClose,                   // 1-4
      t.specialtyOpen, Specialty(d.specialization), t.specialtyClose,                 // 6-8
      t.licenseOpen, d.medicalLicenseId ]
  }

  /** The patient information (lines 205-225). */
  function PatientPieces(t: Markup, p: Patient, date: string, today: Date): (r: seq<string>)
    ensures |r| == 11
  {
    [ t.patientOpen, p.firstName, " ", p.lastName,
      t.ageOpen, IntToString(Age(today, p.dateOfBirth)), t.years,                     // 5-6
      t.phoneOpen, p.phone, t.dateOpen, date ]
  }

  /** The signature block (lines 253-258). */
  function FooterPieces(t: Markup, d: Doctor, date: string): (r: seq<string>)
    ensures |r| == 8
  {
    [ t.footerOpen, date, t.signatureOpen, "Dr. ", d.firstName, " ", d.lastName,      // 3-6
      t.pageClose ]
  }

  /** The sections of the page, in order. */
  function PageSections(t: Markup, data: PrescriptionData, today: Date): (r: seq<string>)
    ensures |r| == 5
  {
    [ Concat(HeaderPieces(t, data.doctor)),
      Concat(PatientPieces(t, data.patient, data.date, today)),
      t.prescriptionOpen + Concat(Items(t, data.medicines)) + t.prescriptionClose,     // lines 227-245
      NotesSection(data.additionalNotes),
      Concat(FooterPieces(t, data.doctor, data.date)) ]
  }

  function Page(t: Markup, data: PrescriptionData, today: Date): string {
    Concat(PageSections(t, data, today))
  }

  /** `renderPrescriptionHTML(data)` on day `today`. */
  function RenderPrescriptionHTML(data: PrescriptionData, today: Date): string {
    Page(ClientMarkup, data, today)
  }

  // What the page shows, whatever its fixed text. Values are inserted
  // verbatim, without escaping.

  /** The numbered heading of an item stands inside the item. */
  lemma LabelInItem(t: Markup, m: Medicine, i: nat)
    ensures OccursAt(MedicineItem(t, m, i), Label(m, i), Offset(ItemPieces(t, m, i), 1))
    ensures Offset(ItemPieces(t, m, i), 1) + |Label(m, i)| <= |MedicineItem(t, m, i)|
  {
    var ps := ItemPieces(t, m, i);
    ConcatRun5(ps, 1);
    OffsetMonotone(ps, 6, 13);
    OffsetEnd(ps);
  }

  /** What occurs in section `k` occurs in the page, shifted by the section's offset. */
  lemma InSection(t: Markup, data: PrescriptionData, today: Date, k: nat, x: string, q: nat)
    requires k < 5 && OccursAt(PageSections(t, data, today)[k], x, q)
    ensures OccursAt(Page(t, data, today), x, Offset(PageSections(t, data, today), k) + q)
  {
    var sections := PageSections(t, data, today);
    ConcatPieceOccurs(sections, k);
    OccursTrans(Page(t, data, today), sections[k], Offset(sections, k), x, q);
  }

  /** Where the heading of medicine `k` stands in the page. */
  function LabelOffset(t: Markup, data: PrescriptionData, today: Date, k: nat): nat
    requires k < |data.medicines|
  {
    Offset(PageSections(t, data, today), 2) + |t.prescriptionOpen| + Offset(Items(t, data.medicines), k) +
    Offset(ItemPieces(t, data.medicines[k], k), 1)
  }

  /**
   * Medicine `k` appears as `k+1. name dosage`, and the headings come in
   * the order of the list (lines 230-244).
   */
  lemma MedicinesNumberedInOrder(t: Markup, data: PrescriptionData, today: Date, k: nat)
    requires k < |data.medicines|
    ensures OccursAt(Page(t, data, today), Label(data.medicines[k], k), LabelOffset(t, data, today, k))
    ensures k + 1 < |data.medicines| ==>
      LabelOffset(t, data, today, k) + |Label(data.medicines[k], k)| <= LabelOffset(t, data, today, k + 1)
  {
    var ms := data.medicines;
    var items := Items(t, ms);
    var heading := Label(ms[k], k);
    var inItem := Offset(ItemPieces(t, ms[k], k), 1);
    ConcatPieceOccurs(items, k);
    LabelInItem(t, ms[k], k);
    OccursTrans(Concat(items), items[k], Offset(items, k), heading, inItem);
    OccursInMiddle(t.prescriptionOpen, Concat(items), t.prescriptionClose);
    OccursTrans(PageSections(t, data, today)[2], Concat(items), |t.prescriptionOpen|, heading, Offset(items, k) + inItem);
    InSection(t, data, today, 2, heading, |t.prescriptionOpen| + Offset(items, k) + inItem);
    if k + 1 < |ms| {
      assert inItem + |heading| <= |items[k]|;
      assert Offset(items, k) + |items[k]| == Offset(items, k + 1);
    }
  }

  /** Given instructions appear in an `<em>` element of their medicine's item (line 240). */
  lemma InstructionsShown(t: Markup, m: Medicine, i: nat)
    requires Truthy(m.instructions)
    ensures OccursAt(MedicineItem(t, m, i), "<em>" + m.instructions.value + "</em>", Offset(ItemPieces(t, m, i), 11))
  {
    ConcatPieceOccurs(ItemPieces(t, m, i), 11);
  }

  /**
   * The `<em>` element adds exactly the instructions and its two tags when
   * they are non-empty, and nothing when they are empty or absent.
   */
  lemma InstructionsLength(t: Markup, m: Medicine, i: nat)
    ensures |MedicineItem(t, m, i)| ==
      |MedicineItem(t, m.(instructions := None), i)| + if Truthy(m.instructions) then |m.instructions.value| + 9 else 0
  {
    ConcatReplaceLength(ItemPieces(t, m, i), ItemPieces(t, m.(instructions := None), i), 11);
  }

  /** A non-empty note appears in the notes section, which is absent otherwise (lines 247-251). */
  lemma NotesShown(t: Markup, data: PrescriptionData, today: Date)
    ensures data.additionalNotes != "" ==>
      OccursAt(Page(t, data, today),
               "<div class=\"notes-section\">" + data.additionalNotes + "</div>",
               Offset(PageSections(t, data, today), 3))
    ensures |Page(t, data, today)| ==
      |Page(t, data.(additionalNotes := ""), today)| +
      if data.additionalNotes == "" then 0 else |data.additionalNotes| + 33
  {
    ConcatPieceOccurs(PageSections(t, data, today), 3);
    ConcatReplaceLength(PageSections(t, data, today), PageSections(t, data.(additionalNotes := ""), today), 3);
  }

  /** Where the specialty paragraph stands in the page. */
  function SpecialtyOffset(t: Markup, data: PrescriptionData, today: Date): nat {
    Offset(PageSections(t, data, today), 0) + Offset(HeaderPieces(t, data.doctor), 6)
  }

  /**
   * The specialty paragraph holds "MD" only when no specialization is given:
   * an empty one stays empty (line 199).
   */
  lemma SpecialtyShown(t: Markup, data: PrescriptionData, today: Date)
    ensures data.doctor.specialization.None? ==>
      OccursAt(Page(t, data, today), t.specialtyOpen + "MD" + t.specialtyClose, SpecialtyOffset(t, data, today))
    ensures data.doctor.specialization.Some? ==>
      OccursAt(Page(t, data, today),
               t.specialtyOpen + data.doctor.specialization.value + t.specialtyClose,
               SpecialtyOffset(t, data, today))
  {
    var header := HeaderPieces(t, data.doctor);
    ConcatRun3(header, 6);
    InSection(t, data, today, 0, header[6] + header[7] + header[8], Offset(header, 6));
  }

  /** Where the age stands in the page. */
  function AgeOffset(t: Markup, data: PrescriptionData, today: Date): nat {
    Offset(PageSections(t, data, today), 1) + Offset(PatientPieces(t, data.patient, data.date, today), 5)
  }

  /** The patient's age in completed years, followed by "years" (line 214). */
  lemma AgeShown(t: Markup, data: PrescriptionData, today: Date)
    ensures OccursAt(Page(t, data, today),
                     IntToString(Age(today, data.patient.dateOfBirth)) + t.years,
                     AgeOffset(t, data, today))
  {
    var patient := PatientPieces(t, data.patient, data.date, today);
    ConcatRun2(patient, 5);
    InSection(t, data, today, 1, patient[5] + patient[6], Offset(patient, 5));
  }

  /** Where the doctor is named in the header and in the signature. */
  function HeaderNameOffset(t: Markup, data: PrescriptionData, today: Date): nat {
    Offset(PageSections(t, data, today), 0) + Offset(HeaderPieces(t, data.doctor), 1)
  }

  function SignatureNameOffset(t: Markup, data: PrescriptionData, today: Date): nat {
    Offset(PageSections(t, data, today), 4) + Offset(FooterPieces(t, data.doctor, data.date), 3)
  }

  /** The header's naming of the doctor ends before the signature's begins. */
  lemma HeaderNameFirst(t: Markup, data: PrescriptionData, today: Date)
    ensures HeaderNameOffset(t, data, today) + |"Dr. " + data.doctor.firstName + " " + data.doctor.lastName|
      <= SignatureNameOffset(t, data, today)
  {
    var sections := PageSections(t, data, today);
    var header := HeaderPieces(t, data.doctor);
    ConcatRun4(header, 1);
    OffsetMonotone(header, 5, 11);
    OffsetEnd(header);
    ConcatPieceOccurs(sections, 0);
    OffsetMonotone(sections, 1, 4);
  }

  /** The doctor is named in the header (line 197) and again in the signature (line 255). */
  lemma DoctorNamedTwice(t: Markup, data: PrescriptionData, today: Date)
    ensures var name := "Dr. " + data.doctor.firstName + " " + data.doctor.lastName;
      OccursAt(Page(t, data, today), name, HeaderNameOffset(t, data, today)) &&
      OccursAt(Page(t, data, today), name, SignatureNameOffset(t, data, today)) &&
      HeaderNameOffset(t, data, today) + |name| <= SignatureNameOffset(t, data, today)
  {
    var header := HeaderPieces(t, data.doctor);
    var footer := FooterPieces(t, data.doctor, data.date);
    ConcatRun4(header, 1);
    ConcatRun4(footer, 3);
    InSection(t, data, today, 0, header[1] + header[2] + header[3] + header[4], Offset(header, 1));
    InSection(t, data, today, 4, footer[3] + footer[4] + footer[5] + footer[6], Offset(footer, 3));
    HeaderNameFirst(t, data, today);
  }

  // The page of the source.

  /** Without a specialization the rendered page shows the paragraph `MD` (line 199). */
  lemma RenderedSpecialtyDefault(data: PrescriptionData, today: Date)
    requires data.doctor.specialization.None?
    ensures Contains(RenderPrescriptionHTML(data, today), "<p class=\"doctor-specialty\">MD</p>")
  {
    SpecialtyShown(ClientMarkup, data, today);
    assert ClientMarkup.specialtyOpen + "MD" + ClientMarkup.specialtyClose == "<p class=\"doctor-specialty\">MD</p>";
  }
}
