/**
 * Recording what actually happened on a planned overtime: one editable row
 * per worker of the plan, single-field edits, and the rows sent when saving.
 */
module ActualInput {
  import opened Wrappers
  import opened Domain

  /** An editable attendance row. */
  datatype AktualEntry = AktualEntry(
    pekerjaId: Id,
    pekerjaNama: string,
    dilaksanakan: bool,
    durasiAktual: Option<real>,
    sesuaiRencana: bool,
    keterangan: string)

  /** The rows as first shown: every worker attended, as planned, with no duration and no note yet. */
  function InitialAktual(pekerjaData: seq<Pekerja>): (rows: seq<AktualEntry>)
    ensures |rows| == |pekerjaData|
    ensures forall i :: 0 <= i < |rows| ==>
      rows[i].pekerjaId == pekerjaData[i].id && rows[i].pekerjaNama == pekerjaData[i].nama &&
      rows[i].dilaksanakan && rows[i].durasiAktual.None? && rows[i].sesuaiRencana && rows[i].keterangan == ""
  {
    seq(|pekerjaData|, i requires 0 <= i < |pekerjaData| =>
      AktualEntry(pekerjaData[i].id, pekerjaData[i].nama, true, None, true, ""))
  }

  /** The edit of one field, with its new value. */
  datatype FieldUpdate =
    | SetDilaksanakan(dilaksanakan: bool)
    | SetDurasiAktual(durasiAktual: Option<real>)
    | SetSesuaiRencana(sesuaiRencana: bool)
    | SetKeterangan(keterangan: string)

  /**
   * `{ ...item, [field]: value }`: the named field takes the new value; the
   * worker, the name and the other fields stay as they were.
   */
  function ApplyField(item: AktualEntry, u: FieldUpdate): (r: AktualEntry)
    ensures r.pekerjaId == item.pekerjaId && r.pekerjaNama == item.pekerjaNama
    ensures r.dilaksanakan == if u.SetDilaksanakan? then u.dilaksanakan else item.dilaksanakan
    ensures r.durasiAktual == if u.SetDurasiAktual? then u.durasiAktual else item.durasiAktual
    ensures r.sesuaiRencana == if u.SetSesuaiRencana? then u.sesuaiRencana else item.sesuaiRencana
    ensures r.keterangan == if u.SetKeterangan? then u.keterangan else item.keterangan
  {
    match u
    case SetDilaksanakan(v) => item.(dilaksanakan := v)
    case SetDurasiAktual(v) => item.(durasiAktual := v)
    case SetSesuaiRencana(v) => item.(sesuaiRencana := v)
    case SetKeterangan(v) => item.(keterangan := v)
  }

  /** Whether two edits change the same field. */
  predicate SameField(u: FieldUpdate, v: FieldUpdate)
  {
    (u.SetDilaksanakan? && v.SetDilaksanakan?) || (u.SetDurasiAktual? && v.SetDurasiAktual?) ||
    (u.SetSesuaiRencana? && v.SetSesuaiRencana?) || (u.SetKeterangan? && v.SetKeterangan?)
  }

  /**
   * `handleInputChange`: the rows of the worker get the edit; every other row,
   * the number and the order of the rows stay as they were.
   */
  function HandleInputChange(rows: seq<AktualEntry>, pekerjaId: Id, u: FieldUpdate): (r: seq<AktualEntry>)
    ensures |r| == |rows|
    ensures forall i :: 0 <= i < |rows| && rows[i].pekerjaId != pekerjaId ==> r[i] == rows[i]
    ensures forall i :: 0 <= i < |rows| && rows[i].pekerjaId == pekerjaId ==> r[i] == ApplyField(rows[i], u)
  {
    seq(|rows|, i requires 0 <= i < |rows| => if rows[i].pekerjaId == pekerjaId then ApplyField(rows[i], u) else rows[i])
  }

  /** The later of two edits of the same field of the same worker wins. */
  lemma LastEditWins(rows: seq<AktualEntry>, pekerjaId: Id, u: FieldUpdate, v: FieldUpdate)
    requires SameField(u, v)
    ensures HandleInputChange(HandleInputChange(rows, pekerjaId, u), pekerjaId, v) == HandleInputChange(rows, pekerjaId, v)
  {
  }

  /** Edits of different workers, or of different fields, can be made in either order. */
  lemma EditsCommute(rows: seq<AktualEntry>, id1: Id, u: FieldUpdate, id2: Id, v: FieldUpdate)
    requires id1 != id2 || !SameField(u, v)
    ensures HandleInputChange(HandleInputChange(rows, id1, u), id2, v)
         == HandleInputChange(HandleInputChange(rows, id2, v), id1, u)
  {
  }

  /* ----- The duration field ----- */

  /** What `parseFloat` returns for the text typed in the duration field. */
  datatype JsNumber = NaN | Num(value: real)

  /** `parseFloat(text) || null`: an unreadable entry and a zero both clear the duration. */
  function NormaliseDurasi(x: JsNumber): (r: Option<real>)
    ensures r.None? <==> x.NaN? || x == Num(0.0)
    ensures r.Some? ==> x == Num(r.value) && r.value != 0.0
  {
    match x
    case NaN => None
    case Num(v) => if v == 0.0 then None else Some(v)
  }

  /* ----- Saving ----- */

  /** A row as sent to the store. */
  datatype AktualPayload = AktualPayload(
    rencanaOvertimeId: Id,
    pekerjaId: Id,
    tanggal: string,
    dilaksanakan: bool,
    durasiAktual: Option<real>,
    sesuaiRencana: bool,
    keterangan: Option<string>)

  const NoRencanaMessage: string := "Pilih rencana overtime terlebih dahulu"

  /**
   * One row of the payload: the selected plan and date, the worker and the
   * flags; a duration only when the worker attended, and a note only when
   * one was typed.
   */
  function PayloadRow(selectedRencana: Id, selectedDate: string, item: AktualEntry): (p: AktualPayload)
    ensures p.rencanaOvertimeId == selectedRencana && p.tanggal == selectedDate
    ensures p.pekerjaId == item.pekerjaId && p.dilaksanakan == item.dilaksanakan && p.sesuaiRencana == item.sesuaiRencana
    ensures !item.dilaksanakan ==> p.durasiAktual.None?
    ensures item.dilaksanakan ==> p.durasiAktual == item.durasiAktual
    ensures p.keterangan.None? <==> item.keterangan == ""
    ensures p.keterangan.Some? ==> p.keterangan.value == item.keterangan
  {
    AktualPayload(
      selectedRencana, item.pekerjaId, selectedDate, item.dilaksanakan,
      if item.dilaksanakan then item.durasiAktual else None,
      item.sesuaiRencana,
      if item.keterangan == "" then None else Some(item.keterangan))
  }

  /**
   * The guard and payload of `handleSaveAktual`: refused with a message when
   * no plan is selected, else one row per attendance row.
   */
  function SaveAktualPayload(selectedRencana: Id, selectedDate: string, rows: seq<AktualEntry>): (r: Result<seq<AktualPayload>, string>)
    ensures r.Failure? <==> selectedRencana == ""
    ensures r.Failure? ==> r.error == NoRencanaMessage
    ensures r.Success? ==> |r.value| == |rows|
  {
    if selectedRencana == "" then Failure(NoRencanaMessage)
    else Success(seq(|rows|, i requires 0 <= i < |rows| => PayloadRow(selectedRencana, selectedDate, rows[i])))
  }

  /**
   * Every payload row carries the selected plan and date and its worker; a
   * duration only when the worker attended, and then the entered one; a note
   * only when one was typed, and then that note.
   */
  lemma PayloadRows(selectedRencana: Id, selectedDate: string, rows: seq<AktualEntry>, i: nat)
    requires selectedRencana != "" && i < |rows|
    ensures var p := SaveAktualPayload(selectedRencana, selectedDate, rows).value[i];
      p.rencanaOvertimeId == selectedRencana && p.tanggal == selectedDate &&
      p.pekerjaId == rows[i].pekerjaId && p.dilaksanakan == rows[i].dilaksanakan &&
      p.sesuaiRencana == rows[i].sesuaiRencana &&
      (!rows[i].dilaksanakan ==> p.durasiAktual.None?) &&
      (rows[i].dilaksanakan ==> p.durasiAktual == rows[i].durasiAktual) &&
      (p.keterangan.None? <==> rows[i].keterangan == "") &&
      (p.keterangan.Some? ==> p.keterangan.value == rows[i].keterangan)
  {
  }

  /** A duration typed for a worker marked absent is not sent. */
  lemma DurasiOfAbsentIgnored(selectedRencana: Id, selectedDate: string, rows: seq<AktualEntry>, pekerjaId: Id, x: JsNumber)
    requires selectedRencana != ""
    requires forall i :: 0 <= i < |rows| && rows[i].pekerjaId == pekerjaId ==> !rows[i].dilaksanakan
    ensures SaveAktualPayload(selectedRencana, selectedDate, HandleInputChange(rows, pekerjaId, SetDurasiAktual(NormaliseDurasi(x))))
         == SaveAktualPayload(selectedRencana, selectedDate, rows)
  {
    var rows' := HandleInputChange(rows, pekerjaId, SetDurasiAktual(NormaliseDurasi(x)));
    var before := SaveAktualPayload(selectedRencana, selectedDate, rows).value;
    var after := SaveAktualPayload(selectedRencana, selectedDate, rows').value;
    forall i | 0 <= i < |rows| ensures after[i] == before[i] {
      if rows[i].pekerjaId == pekerjaId {
        assert rows'[i] == rows[i].(durasiAktual := NormaliseDurasi(x));
      }
    }
    assert after == before;
  }

  /** Saving the rows as first shown sends every worker as attended, with no duration and no note. */
  lemma SaveInitial(selectedRencana: Id, selectedDate: string, pekerjaData: seq<Pekerja>)
    requires selectedRencana != ""
    ensures var r := SaveAktualPayload(selectedRencana, selectedDate, InitialAktual(pekerjaData));
      r.Success? && |r.value| == |pekerjaData| &&
      forall i :: 0 <= i < |pekerjaData| ==>
        r.value[i] == AktualPayload(selectedRencana, pekerjaData[i].id, selectedDate, true, None, true, None)
  {
  }
}
