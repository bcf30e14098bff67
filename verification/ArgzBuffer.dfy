/** The operations of libltdl on argument vectors, in place on the byte buffer. */
module ArgzBuffer {
  import opened Options
  import opened Text
  import opened Argz

  class Vector {
    var argz: array?<char>
    var len: nat

    constructor ()
      ensures Shape() && Bytes() == ""
    {
      argz, len := null, 0;
    }

    /** A buffer and its length are both there or both missing. */
    predicate Shape()
      reads this
    {
      if argz == null then len == 0 else 0 < len <= argz.Length
    }

    function Bytes(): string
      requires Shape()
      reads this, argz
    {
      if argz == null then "" else argz[..len]
    }

    /** The buffer holds the list `es`. */
    ghost predicate Holds(es: seq<string>)
      reads this, argz
    {
      Shape() && Bytes() == Encode(es) && AllNulFree(es)
    }

    /** `argz_append`. */
    method Append(buf: string)
      requires Shape()
      modifies this
      ensures Shape() && Bytes() == old(Bytes()) + buf
      ensures buf == "" || fresh(argz)
    {
      if |buf| == 0 { return; }
      var bigger := new char[len + |buf|];
      if argz != null {
        forall i | 0 <= i < len { bigger[i] := argz[i]; }
      }
      forall i | 0 <= i < |buf| { bigger[len + i] := buf[i]; }
      argz, len := bigger, len + |buf|;
    }

    /** `argz_insert`: scans back to the start of an entry and makes room there. */
    method Insert(place: Option<nat>, entry: string)
      requires Shape() && entry != "" && NulFree(entry)
      requires place.Some? ==> place.value < len
      modifies this
      ensures Shape() && fresh(argz)
      ensures Bytes() == AfterInsert(old(Bytes()), place, entry)
    {
      if place.None? {
        Append(entry + [EOS]);
        return;
      }
      var before := place.value;
      while before > 0 && argz[before - 1] != EOS
        invariant 0 <= before <= place.value && EntryStart(Bytes(), before) == EntryStart(Bytes(), place.value)
      {
        before := before - 1;
      }
      MakeRoom(before, entry + [EOS]);
    }

    method MakeRoom(offset: nat, e: string)
      requires Shape() && offset < len
      modifies this
      ensures Shape() && fresh(argz) && Bytes() == Inserted(old(Bytes()), offset, e)
    {
      var bigger := new char[len + |e|];
      forall i | 0 <= i < offset { bigger[i] := argz[i]; }
      forall i | offset <= i < len { bigger[i + |e|] := argz[i]; }
      forall i | 0 <= i < |e| { bigger[offset + i] := e[i]; }
      argz, len := bigger, len + |e|;
    }

    /** `argz_next`; `j` is the entry that `entry` lies in. */
    method Next(entry: Option<nat>, ghost es: seq<string>, ghost j: nat) returns (next: Option<nat>)
      requires Holds(es)
      requires entry.Some? ==> j < |es| && Start(es, j) <= entry.value < Start(es, j + 1)
      ensures next == Place(es, if entry.None? then 0 else j + 1)
    {
      if entry.None? {
        return if len > 0 then Some(0) else None;
      }
      var i := entry.value;
      TerminatorAt(es, j, i);
      while argz[i] != EOS
        invariant Start(es, j) <= i < Start(es, j + 1)
        invariant argz[i] == EOS <==> i == Start(es, j + 1) - 1
        decreases Start(es, j + 1) - i
      {
        i := i + 1;
        TerminatorAt(es, j, i);
      }
      return if i + 1 >= len then None else Some(i + 1);
    }

    /** `strcmp` with the entry at a place. */
    method CompareAt(entry: string, place: nat, ghost es: seq<string>, ghost j: nat) returns (cmp: int)
      requires Holds(es) && j < |es| && place == Start(es, j)
      ensures place < Start(es, j + 1) && cmp == Compare(entry, es[j]) == -Compare(es[j], entry)
      ensures cmp == 0 <==> entry == es[j]
    {
      StringAtIs(es, j);
      EntryAt(es, j);
      CompareOrder(entry, es[j]);
      cmp := Compare(entry, StringAt(Bytes(), place));
    }

    /** The search loop of `lt_argz_insertinorder`. */
    method Search(entry: string, ghost es: seq<string>) returns (place: Option<nat>, found: bool)
      requires Holds(es)
      ensures place == Place(es, Slot(es, entry))
      ensures found <==> Slot(es, entry) < |es| && es[Slot(es, entry)] == entry
    {
      ghost var j: nat := 0;
      found := false;
      place := Next(None, es, 0);
      while place.Some? && !found
        invariant j <= |es| && place == Place(es, j)
        invariant forall i | 0 <= i < j :: Compare(es[i], entry) < 0
        invariant found ==> j < |es| && es[j] == entry && Compare(entry, es[j]) == 0
        decreases |es| - j, !found
      {
        var cmp := CompareAt(entry, place.value, es, j);
        if cmp < 0 { break; }
        if cmp == 0 {
          found := true;
        } else {
          place := Next(place, es, j);
          j := j + 1;
        }
      }
      SlotIs(es, entry, j);
    }

    /** `lt_argz_insertinorder` refines insertion into a set. */
    method InsertInOrder(entry: string, ghost es: seq<string>) returns (ghost es': seq<string>)
      requires Holds(es) && entry != "" && NulFree(entry) && Ascending(es)
      modifies this
      ensures Holds(es') && Ascending(es')
      ensures forall e :: e in es' <==> e in es || e == entry
      ensures entry in es ==> es' == es
    {
      var place, found := Search(entry, es);
      if found { return es; }
      ghost var j := Slot(es, entry);
      if j < |es| { CompareOrder(entry, es[j]); }
      es' := es[..j] + [entry] + es[j..];
      InsertAscending(es, j, entry);
      AfterInsertIs(es, j, entry);
      Insert(place, entry);
    }

    /** The loop over `argz_next`. */
    method Walk(ghost es: seq<string>) returns (visited: seq<string>)
      requires Holds(es)
      ensures visited == es
    {
      visited := [];
      var entry := Next(None, es, 0);
      while entry.Some?
        invariant |visited| <= |es| && visited == es[..|visited|] && entry == Place(es, |visited|)
        decreases |es| - |visited|
      {
        ghost var j := |visited|;
        StringAtIs(es, j);
        EntryAt(es, j);
        visited := visited + [StringAt(Bytes(), entry.value)];
        entry := Next(entry, es, j);
      }
    }

    /** `argz_stringify`; with a separator it needs at least two bytes. */
    method Stringify(sep: char)
      requires Shape() && (sep != EOS ==> len >= 2)
      modifies argz
      ensures Shape() && Bytes() == Stringified(old(Bytes()), sep)
    {
      if sep != EOS {
        var n := len - 2;
        while n > 0
          invariant 0 <= n <= len - 2
          invariant forall k | 0 <= k < len ::
            argz[k] == if n < k < len - 1 && old(argz[k]) == EOS then sep else old(argz[k])
        {
          if argz[n] == EOS { argz[n] := sep; }
          n := n - 1;
        }
      }
    }
  }

  /** `argz_create_sep`. */
  method CreateSep(str: string, delim: char) returns (v: Vector)
    requires NulFree(str)
    ensures fresh(v) && fresh(v.argz) && v.Holds(Entries(str, delim))
  {
    var argz, argzLen := CopySep(str, delim);
    v := new Vector();
    v.argz, v.len := argz, argzLen;
    TraceIs(str, |str|, delim);
    assert str[..|str|] == str;
    WrittenEncodes(Split(str, {delim}));
    EntriesNulFree(str, delim);
  }

  method Put(argz: array<char>, q: nat, c: char) returns (q': nat)
    requires q < argz.Length
    modifies argz
    ensures q' == q + 1 && argz[..q'] == old(argz[..q]) + [c]
  {
    argz[q] := c;
    q' := q + 1;
  }

  /** One character of the copy; the length shrinks when nothing is written. */
  method PutSep(argz: array<char>, argzLen: nat, q: nat, c: char, delim: char) returns (argzLen': nat, q': nat)
    requires q < argz.Length && argzLen > 0
    modifies argz
    ensures argzLen' - q' == argzLen - q - 1 && q <= q' <= q + 1
    ensures argz[..q'] == Grown(old(argz[..q]), c, delim)
  {
    argzLen', q' := argzLen, q;
    if c == delim {
      if q > 0 && argz[q - 1] != EOS {
        q' := Put(argz, q, EOS);
      } else {
        argzLen' := argzLen - 1;
      }
    } else {
      q' := Put(argz, q, c);
    }
  }

  method CopySep(str: string, delim: char) returns (argz: array<char>, argzLen: nat)
    requires NulFree(str)
    ensures fresh(argz) && 0 < argzLen <= argz.Length
    ensures argz[..argzLen] == Trace(str, |str|, delim) + [EOS]
  {
    argzLen := 1 + |str|;
    argz := new char[argzLen];
    var p, q := 0, 0;
    while p < |str|
      invariant p <= |str| && q <= p && argzLen == 1 + |str| - (p - q)
      invariant argz[..q] == Trace(str, p, delim)
    {
      argzLen, q := PutSep(argz, argzLen, q, str[p], delim);
      p := p + 1;
    }
    q := Put(argz, q, EOS);
  }
}
