/** The append-only writer and the cursor reader, each tied to the functional byte form. */
module Buffers {
  import opened Prelude
  import opened Codec

  /** Each write is specified with what may still follow: the new buffer, then `rest`, is the old
      buffer, then the item put in front of `rest`. */
  class Writer {
    var buf: Bytes

    constructor ()
      ensures buf == []
    {
      buf := [];
    }

    method U8(v: byte)
      modifies this
      ensures forall rest: Bytes {:trigger buf + rest} :: buf + rest == old(buf) + PutU8(v, rest)
    {
      buf := buf + [v];
    }

    method U32(v: nat)
      modifies this
      ensures forall rest: Bytes {:trigger buf + rest} :: buf + rest == old(buf) + PutU32(v, rest)
    {
      buf := buf + Be(v % U32_LIMIT, 4);
    }

    method U64(v: nat)
      modifies this
      ensures forall rest: Bytes {:trigger buf + rest} :: buf + rest == old(buf) + PutU64(v, rest)
    {
      buf := buf + Be(v % U64_LIMIT, 8);
    }

    method ByteString(b: Bytes)
      modifies this
      ensures forall rest: Bytes {:trigger buf + rest} :: buf + rest == old(buf) + PutBytes(b, rest)
    {
      U32(|b|);
      ghost var prefixed := buf;
      buf := buf + b;
      forall rest: Bytes ensures buf + rest == old(buf) + PutBytes(b, rest) {
        assert buf + rest == prefixed + (b + rest);
      }
    }
  }

  /** The cursor stands where the functional parser would, or the same error was returned. */
  predicate Agrees<T(==)>(rest: Bytes, r: Result<T, IdentityError>, parsed: Parsed<T>) {
    match parsed
    case Ok((x, tail)) => r == Ok(x) && rest == tail
    case Err(e) => r == Err(e)
  }

  class Reader {
    const buf: Bytes
    var pos: nat

    ghost predicate Valid()
      reads this
    {
      pos <= |buf|
    }

    /** The unread bytes. */
    ghost function Rest(): Bytes
      requires Valid()
      reads this
    {
      buf[pos..]
    }

    constructor (bytes: Bytes)
      ensures Valid() && Rest() == bytes && buf == bytes
    {
      buf := bytes;
      pos := 0;
    }

    predicate Finished()
      requires Valid()
      reads this
      ensures Finished() <==> Rest() == []
    {
      pos == |buf|
    }

    method U8() returns (r: Result<byte, IdentityError>)
      requires Valid()
      modifies this
      ensures Valid() && Agrees(Rest(), r, GetU8(old(Rest())))
    {
      if pos >= |buf| { return Err(Truncated); }
      r := Ok(buf[pos]);
      pos := pos + 1;
    }

    /** The next `k` bytes as a big-endian number: `u32` reads four, `u64` reads eight. */
    method Fixed(k: nat) returns (r: Result<nat, IdentityError>)
      requires Valid()
      modifies this
      ensures Valid() && Agrees(Rest(), r, GetU(k, old(Rest())))
    {
      var end := pos + k;
      if end > |buf| { return Err(Truncated); }
      assert old(Rest())[..k] == buf[pos..end];
      r := Ok(FromBe(buf[pos..end]));
      pos := end;
    }

    method U32() returns (r: Result<nat, IdentityError>)
      requires Valid()
      modifies this
      ensures Valid() && Agrees(Rest(), r, GetU32(old(Rest())))
    {
      r := Fixed(4);
    }

    method U64() returns (r: Result<nat, IdentityError>)
      requires Valid()
      modifies this
      ensures Valid() && Agrees(Rest(), r, GetU64(old(Rest())))
    {
      r := Fixed(8);
    }

    method BytesLimited(max: nat) returns (r: Result<Bytes, IdentityError>)
      requires Valid()
      modifies this
      ensures Valid() && Agrees(Rest(), r, GetBytes(max, old(Rest())))
    {
      var len :- U32();
      if len > max { return Err(FieldTooLarge); }
      var end := pos + len;
      if end > |buf| { return Err(Truncated); }
      assert Rest()[..len] == buf[pos..end];
      r := Ok(buf[pos..end]);
      pos := end;
    }

    /** A count is read and compared with its cap before anything is read for it. */
    method Count(max: nat) returns (r: Result<nat, IdentityError>)
      requires Valid()
      modifies this
      ensures Valid()
      ensures match GetU32(old(Rest()))
        case Ok((n, tail)) => (if n > max then r == Err(TooManyItems) else r == Ok(n) && Rest() == tail)
        case Err(e) => r == Err(e)
    {
      var n :- U32();
      if n > max { return Err(TooManyItems); }
      return Ok(n);
    }
  }

  /* ---- loops over lists ---- */

  lemma PutAllStep<T>(put: (T, Bytes) -> Bytes, xs: seq<T>, i: nat, rest: Bytes)
    requires i < |xs|
    ensures PutAll(put, xs[i..], rest) == put(xs[i], PutAll(put, xs[i + 1..], rest))
  {
  }

  /** `done` have been read; the remaining `n` follow in `b`. */
  function Resume<T>(f: Format<T>, done: seq<T>, n: nat, b: Bytes): Parsed<seq<T>> {
    var (xs, rest) :- GetAll(f, n, b);
    Ok((done + xs, rest))
  }

  lemma ResumeStep<T>(f: Format<T>, done: seq<T>, n: nat, b: Bytes)
    requires n > 0
    ensures f.get(b).Err? ==> Resume(f, done, n, b) == Err(f.get(b).error)
    ensures f.get(b).Ok? ==>
      Resume(f, done, n, b) == Resume(f, done + [f.get(b).value.0], n - 1, f.get(b).value.1)
  {
    if f.get(b).Ok? && GetAll(f, n - 1, f.get(b).value.1).Ok? {
      var x := f.get(b).value.0;
      var xs := GetAll(f, n - 1, f.get(b).value.1).value.0;
      assert done + ([x] + xs) == done + [x] + xs;
    }
  }

  lemma ResumeStart<T>(f: Format<T>, n: nat, b: Bytes)
    ensures Resume(f, [], n, b) == GetAll(f, n, b)
  {
    if GetAll(f, n, b).Ok? {
      assert [] + GetAll(f, n, b).value.0 == GetAll(f, n, b).value.0;
    }
  }
}
