/** The one-entry cache of the Windows clipboard reader, kept in buffers nobody else holds. */
module ClipboardCache {
  import opened Wrappers

  datatype Kind = Empty | Image | Text

  /** The value of the cache record. */
  datatype Entry = Entry(seqno: nat, kind: Kind, data: Bytes, text: Bytes)

  // ---------- what the cache answers and remembers ----------

  /** The value remembered for this sequence number, if it is of the kind asked for. */
  function Hit(e: Entry, seqno: nat, want: Kind): Option<Bytes> {
    if seqno == 0 || e.seqno != seqno || e.kind != want then None
    else if want.Image? && e.data != [] then Some(e.data)
    else if want.Text? && e.text != [] then Some(e.text)
    else None
  }

  /** Sequence number 0, empty values and values over the limit are not remembered. */
  function Remembering(e: Entry, seqno: nat, want: Kind, value: Bytes, limit: nat): Entry {
    if seqno == 0 || value == [] || |value| > limit then e
    else if want.Image? then Entry(seqno, Image, value, [])
    else Entry(seqno, Text, [], value)
  }

  /** What is remembered is what is answered, for its own number and kind only. */
  lemma HitIsLast(e: Entry, seqno: nat, want: Kind, value: Bytes, limit: nat, seqno': nat, want': Kind)
    requires !want.Empty? && !want'.Empty?
    ensures var e' := Remembering(e, seqno, want, value, limit);
      Hit(e', seqno', want') ==
      if seqno == 0 || value == [] || |value| > limit then Hit(e, seqno', want')
      else if seqno' == seqno && want' == want then Some(value) else None
  {
  }

  // ---------- the record in memory ----------

  class Cache {
    var seqno: nat
    var kind: Kind
    var data: array<Byte>
    var text: Bytes
    ghost var shared: set<array<Byte>>  // every buffer a caller has handed in or been given

    ghost predicate Valid()
      reads this
    {
      data !in shared
    }

    ghost function Value(): Entry
      reads this, data
    {
      Entry(seqno, kind, data[..], text)
    }

    constructor ()
      ensures Valid() && shared == {} && Value() == Entry(0, Empty, [], []) && fresh(data)
    {
      seqno, kind, data, text, shared := 0, Empty, new Byte[0], [], {};
    }

    /** The caller gets a copy. */
    method CachedImage(seqno: nat) returns (out: array<Byte>, ok: bool)
      requires Valid()
      modifies this`shared
      ensures Valid() && Value() == old(Value()) && data == old(data)
      ensures fresh(out) && out != data && shared == old(shared) + {out}
      ensures Hit(Value(), seqno, Image) == if ok then Some(out[..]) else None
    {
      if seqno == 0 || this.seqno != seqno || kind != Image || data.Length == 0 {
        out, ok := new Byte[0], false;
      } else {
        out, ok := new Byte[data.Length], true;
        var i := 0;
        while i < data.Length
          invariant 0 <= i <= data.Length && out.Length == data.Length && out[..i] == data[..i]
          modifies out
        {
          out[i] := data[i];
          i := i + 1;
        }
        assert out[..] == data[..];
      }
      shared := shared + {out};
    }

    method CachedText(seqno: nat) returns (text: Bytes, ok: bool)
      ensures Hit(Value(), seqno, Text) == if ok then Some(text) else None
    {
      if seqno == 0 || this.seqno != seqno || kind != Text || this.text == [] {
        text, ok := [], false;
      } else {
        text, ok := this.text, true;
      }
    }

    /** The cache keeps a copy. */
    method StoreCachedImage(seqno: nat, image: array<Byte>, limit: nat)
      requires Valid() && image != data
      modifies this
      ensures Valid() && shared == old(shared) + {image} && (data == old(data) || fresh(data))
      ensures image[..] == old(image[..])
      ensures Value() == Remembering(old(Value()), seqno, Image, image[..], limit)
    {
      shared := shared + {image};
      if seqno == 0 || image.Length == 0 || image.Length > limit {
        return;
      }
      var copy := new Byte[image.Length];
      var i := 0;
      while i < image.Length
        invariant 0 <= i <= image.Length && copy.Length == image.Length && copy[..i] == image[..i]
        modifies copy
      {
        copy[i] := image[i];
        i := i + 1;
      }
      assert copy[..] == image[..];
      this.seqno, kind, data, text := seqno, Image, copy, [];
    }

    method StoreCachedText(seqno: nat, value: Bytes, limit: nat)
      requires Valid()
      modifies this
      ensures Valid() && shared == old(shared) && (data == old(data) || fresh(data))
      ensures Value() == Remembering(old(Value()), seqno, Text, value, limit)
    {
      if seqno == 0 || value == [] || |value| > limit {
        return;
      }
      this.seqno, kind, data, text := seqno, Text, new Byte[0], value;
    }
  }

  /** Whatever a caller writes into a buffer it was given or handed in, the cache keeps its value. */
  method Scribble(c: Cache, buffer: array<Byte>, i: nat, b: Byte)
    requires c.Valid() && buffer in c.shared && i < buffer.Length
    modifies buffer
    ensures c.Valid() && c.Value() == old(c.Value())
  {
    buffer[i] := b;
  }
}
