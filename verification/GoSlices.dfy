/** Go slices over a shared backing array, as far as a three-index slice and append go. */
module GoSlices {

  /** length elements of backing from offset on, with room for capacity of them. */
  datatype Slice = Slice(backing: array<string>, offset: nat, length: nat, capacity: nat) {
    ghost predicate Valid()
      reads backing
    {
      length <= capacity && offset + capacity <= backing.Length
    }

    ghost function Contents(): seq<string>
      requires Valid()
      reads backing
    {
      backing[offset..offset + length]
    }
  }

  method At(s: Slice, i: nat) returns (x: string)
    requires s.Valid() && i < s.length
    ensures x == s.Contents()[i]
  {
    x := s.backing[s.offset + i];
  }

  method Elements(s: Slice) returns (list: seq<string>)
    requires s.Valid()
    ensures list == s.Contents()
  {
    list := s.backing[s.offset..s.offset + s.length];
  }

  /** s[:high:max] */
  method Head(s: Slice, high: nat, max: nat) returns (r: Slice)
    requires s.Valid() && high <= max <= s.capacity
    ensures r.Valid() && r.backing == s.backing && r.offset == s.offset && r.length == high && r.capacity == max
    ensures high <= s.length ==> r.Contents() == s.Contents()[..high]
  {
    r := Slice(s.backing, s.offset, high, max);
  }

  /** s[low:] */
  method Tail(s: Slice, low: nat) returns (r: Slice)
    requires s.Valid() && low <= s.length
    ensures r == Slice(s.backing, s.offset + low, s.length - low, s.capacity - low)
    ensures r.Valid() && r.Contents() == s.Contents()[low..]
  {
    r := Slice(s.backing, s.offset + low, s.length - low, s.capacity - low);
  }

  /** Copies n elements between two different arrays. */
  method Copy(from: array<string>, start: nat, to: array<string>, at: nat, n: nat)
    requires from != to && start + n <= from.Length && at + n <= to.Length
    modifies to
    ensures to[..at] == old(to[..at]) && to[at..at + n] == from[start..start + n] && to[at + n..] == old(to[at + n..])
  {
    for i := 0 to n
      invariant forall j :: at <= j < at + i ==> to[j] == from[j - at + start]
      invariant forall j :: 0 <= j < to.Length && !(at <= j < at + i) ==> to[j] == old(to[j])
    {
      to[at + i] := from[start + i];
    }
  }

  /** append(s, more...): in place while the capacity lasts, otherwise into a new array; the appended
      elements are read before anything is written, so an overlap does no harm. */
  method Append(s: Slice, more: Slice) returns (r: Slice)
    requires s.Valid() && more.Valid()
    modifies if 0 < more.length <= s.capacity - s.length then {s.backing} else {}
    ensures r.Valid() && r.Contents() == old(s.Contents()) + old(more.Contents())
    ensures if more.length <= s.capacity - s.length then r.backing == s.backing else fresh(r.backing)
  {
    var n := more.length;
    if n == 0 {
      return s;
    }
    var read := new string[n];
    Copy(more.backing, more.offset, read, 0, n);
    assert read[..] == read[0..0 + n] == more.Contents();
    if n <= s.capacity - s.length {
      r := AppendInPlace(s, read);
    } else {
      r := Grow(s, read);
    }
  }

  method AppendInPlace(s: Slice, more: array<string>) returns (r: Slice)
    requires s.Valid() && more != s.backing && more.Length <= s.capacity - s.length
    modifies s.backing
    ensures r.Valid() && r.backing == s.backing && r.Contents() == old(s.Contents()) + more[..]
  {
    var end := s.offset + s.length;
    ghost var before := s.backing[..end];
    Copy(more, 0, s.backing, end, more.Length);
    r := Slice(s.backing, s.offset, s.length + more.Length, s.capacity);
    assert s.backing[..end] == before;
    assert old(s.Contents()) == before[s.offset..] == s.backing[s.offset..end];
    assert r.Contents() == s.backing[s.offset..end] + s.backing[end..end + more.Length];
  }

  method Grow(s: Slice, more: array<string>) returns (r: Slice)
    requires s.Valid()
    ensures r.Valid() && fresh(r.backing) && r.Contents() == s.Contents() + more[..]
  {
    var grown := new string[s.length + more.Length];
    Copy(s.backing, s.offset, grown, 0, s.length);
    Copy(more, 0, grown, s.length, more.Length);
    r := Slice(grown, 0, s.length + more.Length, s.length + more.Length);
    assert grown[..s.length] == s.Contents();
    assert r.Contents() == grown[..s.length] + grown[s.length..s.length + more.Length];
  }
}
