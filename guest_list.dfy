/**
 * The guest verifier of `GuestForm`: turning the rows of the invitation sheet
 * into the list of invited names, the outcome of loading that list, and the
 * membership test behind the "Cek Undangan" button.
 */
module GuestList {
  import opened Wrappers
  import opened JsString

  /** The value of a row's `Nama` property, as far as `entry.Nama?.trim()` can tell. */
  datatype Field =
    | Missing          // `undefined` or `null`: the optional chain yields `undefined`
    | Text(value: string)
    | NonText          // a number, boolean, array or object: `trim` is not a function

  /**
   * One element of the decoded JSON array. A number, string or boolean
   * element, or an array, has no `Nama` property and behaves as
   * `Record(Missing)`; a `null` element is `Nullish`.
   */
  datatype Entry = Record(nama: Field) | Nullish   // `null.Nama` throws

  /** The value `entry.Nama?.trim()` produces for one entry, or the TypeError it throws. */
  datatype Mapped = Throws | Undefined | Str(s: string)

  /** The abstract outcome of the `fetch` of the sheet and the decoding of its body. */
  datatype Response =
    | Unreachable                    // `fetch` or `res.json()` rejects
    | NotOk                          // `res.ok` is false
    | NotArray                       // the body is not a JSON array
    | Rows(entries: seq<Entry>)

  /** Why loading failed; each is caught by the same handler and shown alike. */
  datatype LoadError =
    | FetchFailed       // the rejected `fetch` or body decoding
    | AccessFailed      // "Gagal mengakses data Google Sheet"
    | InvalidFormat     // "Format data tidak valid"
    | EntryTypeError    // the TypeError thrown by `entry.Nama?.trim()`
    | EmptyList         // "Daftar nama kosong atau tidak valid"

  /** `entry.Nama?.trim()`. */
  function MapEntry(e: Entry): (m: Mapped)
    ensures m.Str? ==> IsTrimmed(m.s)
  {
    match e
    case Nullish => Throws
    case Record(Missing) => Undefined
    case Record(NonText) => Throws
    case Record(Text(v)) => TrimIsTrimmed(v); Str(Trim(v))
  }

  /** The filter `typeof name === "string" && name.length > 0`, as a property of the entry. */
  predicate Kept(e: Entry) {
    MapEntry(e).Str? && MapEntry(e).s != []
  }

  /** No entry of the sheet makes `entry.Nama?.trim()` throw. */
  predicate AllMappable(es: seq<Entry>) {
    forall i :: 0 <= i < |es| ==> !MapEntry(es[i]).Throws?
  }

  /** Every name is non-empty and has no surrounding white space. */
  predicate CleanNames(names: seq<string>) {
    forall k :: 0 <= k < |names| ==> names[k] != [] && IsTrimmed(names[k])
  }

  /**
   * `data.map(entry => entry.Nama?.trim()).filter(...)`: `None` when the map
   * throws, otherwise the surviving names. Computed from the last entry back,
   * which yields the same list as the left-to-right map and filter.
   */
  function Names(es: seq<Entry>): (r: Option<seq<string>>)
    ensures r.Some? <==> AllMappable(es)
    ensures r.Some? ==> |r.value| <= |es| && CleanNames(r.value)
  {
    if es == [] then Some([])
    else
      var init, m := Names(es[..|es| - 1]), MapEntry(es[|es| - 1]);
      assert AllMappable(es) <==> AllMappable(es[..|es| - 1]) && !m.Throws? by {
        assert forall i :: 0 <= i < |es| - 1 ==> es[..|es| - 1][i] == es[i];
      }
      if init.None? || m.Throws? then None
      else if m.Str? && m.s != [] then Some(init.value + [m.s])
      else init
  }

  /** The positions, in order, of the entries whose name survives the filter. */
  ghost function KeptIndices(es: seq<Entry>): seq<nat> {
    if es == [] then []
    else KeptIndices(es[..|es| - 1]) + (if Kept(es[|es| - 1]) then [|es| - 1] else [])
  }

  /**
   * `names` lists, in sheet order, the trimmed `Nama` of exactly the entries
   * at positions `idx`, and `idx` holds every position whose entry is kept.
   */
  ghost predicate SelectsKept(es: seq<Entry>, names: seq<string>, idx: seq<nat>) {
    && |idx| == |names|
    && (forall k :: 0 <= k < |idx| ==>
          idx[k] < |es| && Kept(es[idx[k]]) && names[k] == MapEntry(es[idx[k]]).s)
    && (forall k, l :: 0 <= k < l < |idx| ==> idx[k] < idx[l])
    && (forall j :: 0 <= j < |es| && Kept(es[j]) ==> j in idx)
  }

  /**
   * The loaded names keep the sheet order and hold exactly one name per entry
   * whose `Nama` is a string that is not blank; every other entry is dropped.
   */
  lemma {:induction false} NamesSelectKept(es: seq<Entry>)
    requires AllMappable(es)
    ensures Names(es).Some? && SelectsKept(es, Names(es).value, KeptIndices(es))
  {
    if es != [] {
      var n := |es| - 1;
      var init, last := es[..n], es[n];
      assert es == init + [last];
      assert AllMappable(init) by {
        assert forall i :: 0 <= i < n ==> init[i] == es[i];
      }
      NamesSelectKept(init);
      SelectsKeptExtend(init, last, Names(init).value, KeptIndices(init));
    }
  }

  /** Appending one entry extends the selection by that entry's name, if it is kept. */
  lemma SelectsKeptExtend(init: seq<Entry>, last: Entry, names: seq<string>, idx: seq<nat>)
    requires SelectsKept(init, names, idx)
    ensures SelectsKept(init + [last],
                        names + (if Kept(last) then [MapEntry(last).s] else []),
                        idx + (if Kept(last) then [|init|] else []))
  {
    var es := init + [last];
    assert forall i :: 0 <= i < |init| ==> es[i] == init[i];
    var names', idx' := names + (if Kept(last) then [MapEntry(last).s] else []),
                        idx + (if Kept(last) then [|init|] else []);
    forall j | 0 <= j < |es| && Kept(es[j]) ensures j in idx' {
      if j < |init| { assert j in idx; }
    }
  }

  /** The number of names is the number of kept entries. */
  lemma NamesCount(es: seq<Entry>)
    requires AllMappable(es)
    ensures |Names(es).value| == |KeptIndices(es)|
  {
    NamesSelectKept(es);
  }

  /** Loading the invitation list: the checks of `fetchGuestList`, in the order it makes them. */
  function LoadGuestList(response: Response): (r: Result<seq<string>, LoadError>)
    ensures r.Ok? <==> response.Rows? && AllMappable(response.entries) && Names(response.entries).value != []
    ensures r.Ok? ==> r.value != [] && CleanNames(r.value)
    ensures r == Err(EmptyList) <==> response.Rows? && Names(response.entries) == Some([])
  {
    match response
    case Unreachable => Err(FetchFailed)
    case NotOk => Err(AccessFailed)
    case NotArray => Err(InvalidFormat)
    case Rows(es) =>
      match Names(es)
      case None => Err(EntryTypeError)
      case Some(names) => if |names| == 0 then Err(EmptyList) else Ok(names)
  }

  /** A successful load yields one name per kept entry, in sheet order. */
  lemma LoadedListKeepsOrder(response: Response)
    requires LoadGuestList(response).Ok?
    ensures SelectsKept(response.entries, LoadGuestList(response).value, KeptIndices(response.entries))
  {
    NamesSelectKept(response.entries);
  }

  /** `Array.prototype.includes` on a list of strings (SameValueZero on strings is equality). */
  function Includes(list: seq<string>, x: string): (r: bool)
    ensures r <==> exists i :: 0 <= i < |list| && list[i] == x
  {
    if list == [] then false
    else if list[0] == x then true
    else
      var r := Includes(list[1..], x);
      assert forall i :: 1 <= i < |list| ==> list[i] == list[1..][i - 1];
      r
  }

  /** `guestList.includes(name.trim())`: exact, case-sensitive match of the trimmed candidate. */
  function IsInvited(guestList: seq<string>, candidate: string): (r: bool)
    ensures r <==> Trim(candidate) in guestList
  {
    Includes(guestList, Trim(candidate))
  }

  /** White space around the candidate never changes the verdict. */
  lemma InvitedIgnoresPadding(guestList: seq<string>, lead: string, candidate: string, trail: string)
    requires AllWhiteSpace(lead) && AllWhiteSpace(trail)
    ensures IsInvited(guestList, lead + candidate + trail) == IsInvited(guestList, candidate)
  {
    TrimIgnoresPadding(lead, candidate, trail);
  }

  /** A name made only of white space is never invited by a loaded list. */
  lemma BlankNeverInvited(guestList: seq<string>, candidate: string)
    requires CleanNames(guestList) && AllWhiteSpace(candidate)
    ensures !IsInvited(guestList, candidate)
  {
    TrimEmptyIff(candidate);
  }
}
