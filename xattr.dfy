/**
 * The extended-attribute store behind `lgetxattr` and `lsetxattr`: a map
 * from (path, attribute name) to the stored bytes. Which writes the
 * filesystem refuses (permission, unsupported filesystem, missing path) is
 * fixed when the store is made.
 */
module Xattr {
  import opened Wrappers
  import opened CStrings

  /** (path, attribute name) */
  type Key = (seq<Byte>, seq<Byte>)
  type Attrs = map<Key, seq<Byte>>

  /**
   * What `lgetxattr(path, name, buffer, size)` delivers: the stored value when
   * there is one and it fits in `size` bytes; an error (-1) otherwise.
   */
  function Lookup(attrs: Attrs, key: Key, size: nat): Option<seq<Byte>>
  {
    if key in attrs && |attrs[key]| <= size then Some(attrs[key]) else None
  }

  class XattrStore {
    var attrs: Attrs
    /** The keys whose `lsetxattr` fails. */
    const refused: set<Key>

    constructor (initial: Attrs, refuse: set<Key>)
      ensures attrs == initial && refused == refuse
    {
      attrs := initial;
      refused := refuse;
    }

    /**
     * `lgetxattr`: on success the value is copied to the front of `buffer` and
     * its length returned; the rest of `buffer` is untouched.
     */
    method Get(path: seq<Byte>, name: seq<Byte>, buffer: array<Byte>, size: nat) returns (rc: int)
      requires size <= buffer.Length
      modifies buffer
      ensures Lookup(attrs, (path, name), size).Some? ==>
                var v := Lookup(attrs, (path, name), size).value;
                rc == |v| && buffer[..rc] == v && buffer[rc..] == old(buffer[rc..])
      ensures Lookup(attrs, (path, name), size).None? ==> rc == -1 && buffer[..] == old(buffer[..])
    {
      var key := (path, name);
      if key in attrs && |attrs[key]| <= size {
        var v := attrs[key];
        forall i | 0 <= i < |v| {
          buffer[i] := v[i];
        }
        rc := |v|;
      } else {
        rc := -1;
      }
    }

    /**
     * `lsetxattr` with flags 0: creates or replaces the attribute, unless the
     * filesystem refuses the write, which returns -1 and changes nothing.
     */
    method Set(path: seq<Byte>, name: seq<Byte>, value: seq<Byte>) returns (rc: int)
      modifies this
      ensures (path, name) in refused ==> rc == -1 && attrs == old(attrs)
      ensures (path, name) !in refused ==> rc == 0 && attrs == old(attrs)[(path, name) := value]
    {
      if (path, name) in refused {
        rc := -1;
      } else {
        attrs := attrs[(path, name) := value];
        rc := 0;
      }
    }
  }
}
