/**
 * An android.os.Parcel as Alarm uses it: a buffer of typed values that writers append to
 * and readers consume from a read position, in order. Reading past the end yields the
 * type's default (0, the empty string, null) and leaves the position where it is; a
 * value of another type at the position also reads as the default, but is consumed.
 */
module Parcels {
  import opened Common

  datatype ParcelItem =
    | PInt(i: Int32)
    | PLong(l: Int64)
    | PString(s: string)
    | PUri(u: Option<Uri>)

  /** The int readInt finds at position pos. */
  function IntAt(items: seq<ParcelItem>, pos: int): Int32
  {
    if 0 <= pos < |items| && items[pos].PInt? then items[pos].i else 0
  }

  /** The long readLong finds at position pos. */
  function LongAt(items: seq<ParcelItem>, pos: int): Int64
  {
    if 0 <= pos < |items| && items[pos].PLong? then items[pos].l else 0
  }

  /** The string readString finds at position pos. */
  function StringAt(items: seq<ParcelItem>, pos: int): string
  {
    if 0 <= pos < |items| && items[pos].PString? then items[pos].s else ""
  }

  /** The Uri readParcelable finds at position pos. */
  function UriAt(items: seq<ParcelItem>, pos: int): Option<Uri>
  {
    if 0 <= pos < |items| && items[pos].PUri? then items[pos].u else None
  }

  /** The read position after one read from pos. */
  function NextPos(items: seq<ParcelItem>, pos: nat): (p: nat)
    ensures p == if pos < |items| then pos + 1 else pos
  {
    if pos < |items| then pos + 1 else pos
  }

  class Parcel {
    var items: seq<ParcelItem>
    var pos: nat

    predicate Valid()
      reads this
    {
      pos <= |items|
    }

    /** Parcel.obtain(): an empty parcel. */
    constructor ()
      ensures Valid() && items == [] && pos == 0
    {
      items := [];
      pos := 0;
    }

    /** A parcel holding `items`, positioned at its start for reading (after setDataPosition(0)). */
    constructor Holding(contents: seq<ParcelItem>)
      ensures Valid() && items == contents && pos == 0
    {
      items := contents;
      pos := 0;
    }

    method WriteInt(v: Int32)
      requires Valid()
      modifies this
      ensures Valid() && items == old(items) + [PInt(v)] && pos == old(pos)
    {
      items := items + [PInt(v)];
    }

    method WriteLong(v: Int64)
      requires Valid()
      modifies this
      ensures Valid() && items == old(items) + [PLong(v)] && pos == old(pos)
    {
      items := items + [PLong(v)];
    }

    method WriteString(v: string)
      requires Valid()
      modifies this
      ensures Valid() && items == old(items) + [PString(v)] && pos == old(pos)
    {
      items := items + [PString(v)];
    }

    /** writeParcelable of a Uri (a null one is written as the null marker). */
    method WriteUri(v: Option<Uri>)
      requires Valid()
      modifies this
      ensures Valid() && items == old(items) + [PUri(v)] && pos == old(pos)
    {
      items := items + [PUri(v)];
    }

    method ReadInt() returns (v: Int32)
      requires Valid()
      modifies this
      ensures Valid() && items == old(items) && pos == NextPos(items, old(pos))
      ensures v == IntAt(items, old(pos))
    {
      v := IntAt(items, pos);
      pos := NextPos(items, pos);
    }

    method ReadLong() returns (v: Int64)
      requires Valid()
      modifies this
      ensures Valid() && items == old(items) && pos == NextPos(items, old(pos))
      ensures v == LongAt(items, old(pos))
    {
      v := LongAt(items, pos);
      pos := NextPos(items, pos);
    }

    method ReadString() returns (v: string)
      requires Valid()
      modifies this
      ensures Valid() && items == old(items) && pos == NextPos(items, old(pos))
      ensures v == StringAt(items, old(pos))
    {
      v := StringAt(items, pos);
      pos := NextPos(items, pos);
    }

    /** readParcelable of a Uri. */
    method ReadUri() returns (v: Option<Uri>)
      requires Valid()
      modifies this
      ensures Valid() && items == old(items) && pos == NextPos(items, old(pos))
      ensures v == UriAt(items, old(pos))
    {
      v := UriAt(items, pos);
      pos := NextPos(items, pos);
    }

    // The reads below are the ones above, seen from the position where a sequence of
    // reads of `contents` began: the k-th read from `start` finds the value at start + k.

    method ReadIntAt(ghost contents: seq<ParcelItem>, ghost start: nat, ghost k: nat) returns (v: Int32)
      requires Valid() && items == contents && start <= |contents| && pos == PosAfter(contents, start, k)
      modifies this
      ensures Valid() && items == contents && pos == PosAfter(contents, start, k + 1)
      ensures v == IntAt(contents, start + k)
    {
      v := ReadInt();
      ReadAtPosAfter(items, start, k);
      PosAfterStep(items, start, k);
    }

    method ReadLongAt(ghost contents: seq<ParcelItem>, ghost start: nat, ghost k: nat) returns (v: Int64)
      requires Valid() && items == contents && start <= |contents| && pos == PosAfter(contents, start, k)
      modifies this
      ensures Valid() && items == contents && pos == PosAfter(contents, start, k + 1)
      ensures v == LongAt(contents, start + k)
    {
      v := ReadLong();
      ReadAtPosAfter(items, start, k);
      PosAfterStep(items, start, k);
    }

    method ReadStringAt(ghost contents: seq<ParcelItem>, ghost start: nat, ghost k: nat) returns (v: string)
      requires Valid() && items == contents && start <= |contents| && pos == PosAfter(contents, start, k)
      modifies this
      ensures Valid() && items == contents && pos == PosAfter(contents, start, k + 1)
      ensures v == StringAt(contents, start + k)
    {
      v := ReadString();
      ReadAtPosAfter(items, start, k);
      PosAfterStep(items, start, k);
    }

    method ReadUriAt(ghost contents: seq<ParcelItem>, ghost start: nat, ghost k: nat) returns (v: Option<Uri>)
      requires Valid() && items == contents && start <= |contents| && pos == PosAfter(contents, start, k)
      modifies this
      ensures Valid() && items == contents && pos == PosAfter(contents, start, k + 1)
      ensures v == UriAt(contents, start + k)
    {
      v := ReadUri();
      ReadAtPosAfter(items, start, k);
      PosAfterStep(items, start, k);
    }
  }

  /** The position after k reads from `start`: start + k, or the end of the buffer if that comes first. */
  function PosAfter(items: seq<ParcelItem>, start: nat, k: nat): (p: nat)
    requires start <= |items|
    ensures p <= |items|
    ensures p == start + k || (p == |items| < start + k)
  {
    if start + k <= |items| then start + k else |items|
  }

  /** Either way, the value found at PosAfter is the one at start + k. */
  lemma ReadAtPosAfter(items: seq<ParcelItem>, start: nat, k: nat)
    requires start <= |items|
    ensures var p := PosAfter(items, start, k);
      IntAt(items, p) == IntAt(items, start + k) && LongAt(items, p) == LongAt(items, start + k)
      && StringAt(items, p) == StringAt(items, start + k) && UriAt(items, p) == UriAt(items, start + k)
  {
  }

  /** One more read moves PosAfter on by one. */
  lemma PosAfterStep(items: seq<ParcelItem>, start: nat, k: nat)
    requires start <= |items|
    ensures NextPos(items, PosAfter(items, start, k)) == PosAfter(items, start, k + 1)
  {
  }
}
