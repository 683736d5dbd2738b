/**
 * The submission log: the JSON array kept in the browser's local storage
 * under the key "bukuTamu", appended to by `GuestForm`'s submit handler and
 * listed by `AdminPanel`.
 */
module Submissions {

  /** The two options of the "Konfirmasi Kehadiran" select. */
  datatype Attendance = Hadir | Tidak

  /** One stored response: `{ name, attendance, guests, message }`. */
  datatype Submission = Submission(name: string, attendance: Attendance, guests: int, message: string)

  /** The local-storage key the log lives under. */
  const StorageKey: string := "bukuTamu"

  /** The stored value of `attendance`, as it appears in the JSON and in the admin table. */
  function AttendanceValue(a: Attendance): (v: string)
    ensures v == "hadir" || v == "tidak"
  {
    match a
    case Hadir => "hadir"
    case Tidak => "tidak"
  }

  /**
   * `JSON.parse(localStorage.getItem("bukuTamu") || "[]")`: the stored log,
   * or the empty log when the key is absent.
   */
  function ReadLog(items: map<string, seq<Submission>>): (log: seq<Submission>)
    ensures StorageKey !in items ==> log == []
  {
    if StorageKey in items then items[StorageKey] else []
  }

  /** The storage after the read, `push` and write-back of one submission. */
  function Appended(items: map<string, seq<Submission>>, entry: Submission): (items': map<string, seq<Submission>>)
    ensures StorageKey in items'
    ensures items'.Keys == items.Keys + {StorageKey}
    ensures forall k :: k in items && k != StorageKey ==> items'[k] == items[k]
  {
    items[StorageKey := ReadLog(items) + [entry]]
  }

  /**
   * An append grows the log by exactly one, keeps every earlier entry where
   * it was, and puts the new entry last; an absent log counts as empty.
   */
  lemma AppendGrowsByOne(items: map<string, seq<Submission>>, entry: Submission)
    ensures |ReadLog(Appended(items, entry))| == |ReadLog(items)| + 1
    ensures ReadLog(Appended(items, entry))[..|ReadLog(items)|] == ReadLog(items)
    ensures ReadLog(Appended(items, entry))[|ReadLog(items)|] == entry
  {
  }

  /** The storage after several submissions, in the order they were made. */
  function AppendAll(items: map<string, seq<Submission>>, entries: seq<Submission>): map<string, seq<Submission>>
    decreases |entries|
  {
    if entries == [] then items
    else AppendAll(Appended(items, entries[0]), entries[1..])
  }

  /**
   * However many submissions are made one after another, by one mount of the
   * form or by several sharing the storage, the log holds the earlier
   * entries followed by the new ones in submission order.
   */
  lemma {:induction false} AppendAllAccumulates(items: map<string, seq<Submission>>, entries: seq<Submission>)
    ensures ReadLog(AppendAll(items, entries)) == ReadLog(items) + entries
    decreases |entries|
  {
    if entries != [] {
      AppendAllAccumulates(Appended(items, entries[0]), entries[1..]);
      assert ReadLog(items) + [entries[0]] + entries[1..] == ReadLog(items) + entries;
    }
  }

  /** One row of the admin table: Nama, Kehadiran, Jumlah, Ucapan. */
  datatype TableRow = TableRow(nama: string, kehadiran: string, jumlah: int, ucapan: string)

  /** The row `AdminPanel` renders for one stored entry. */
  function RowOf(entry: Submission): TableRow {
    TableRow(entry.name, AttendanceValue(entry.attendance), entry.guests, entry.message)
  }

  /** The browser's local storage, as far as the guest book uses it. */
  class LocalStorage {
    var items: map<string, seq<Submission>>

    constructor ()
      ensures items == map[]
    {
      items := map[];
    }

    /** The read of line 52 and line 127. */
    method GetLog() returns (log: seq<Submission>)
      ensures log == ReadLog(items)
    {
      if StorageKey in items {
        log := items[StorageKey];
      } else {
        log := [];
      }
    }

    /** `localStorage.setItem("bukuTamu", JSON.stringify(log))`: only that key changes. */
    method SetLog(log: seq<Submission>)
      modifies this
      ensures items == old(items)[StorageKey := log]
    {
      items := items[StorageKey := log];
    }
  }

  /** The admin view: one row per stored entry, in storage order; an absent log shows no rows. */
  method AdminPanel(storage: LocalStorage) returns (rows: seq<TableRow>)
    ensures |rows| == |ReadLog(storage.items)|
    ensures forall i :: 0 <= i < |rows| ==> rows[i] == RowOf(ReadLog(storage.items)[i])
  {
    var data := storage.GetLog();
    rows := seq(|data|, i requires 0 <= i < |data| => RowOf(data[i]));
  }
}
