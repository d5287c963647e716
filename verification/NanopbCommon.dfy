/** The field iterator: a circular walk over a field array. */
module NanopbCommon {
  import opened NanopbFormat

  // How many of the first n fields are required.
  function RequiredBefore(fields: seq<Field>, n: nat): (r: nat)
    requires n <= |fields|
    ensures r <= n
    decreases n
  {
    if n == 0 then 0 else RequiredBefore(fields, n - 1) + if fields[n - 1].htype.Required? then 1 else 0
  }

  class FieldIter {
    const fields: seq<Field>
    var pos: nat                  // index of the field, or of the terminator of an empty array
    var requiredFieldIndex: nat

    ghost predicate Valid()
      reads this
    {
      && (fields == [] ==> pos == 0) && (fields != [] ==> pos < |fields|)
      && requiredFieldIndex == RequiredBefore(fields, pos)
    }

    constructor (fields: seq<Field>)
      ensures Valid() && this.fields == fields && pos == 0
    {
      this.fields := fields;
      pos, requiredFieldIndex := 0, 0;
    }

    // pb_field_iter_begin
    method Begin() returns (ok: bool)
      modifies this
      ensures Valid() && pos == 0 && (ok <==> fields != [])
    {
      pos, requiredFieldIndex := 0, 0;
      return fields != [];
    }

    // pb_field_iter_next: false when it wrapped back to the beginning.
    method Next() returns (ok: bool)
      requires Valid()
      modifies this
      ensures Valid() && (ok <==> old(pos) + 1 < |fields|) && pos == if ok then old(pos) + 1 else 0
    {
      if fields == [] {
        return false;
      }
      var prev := fields[pos];
      pos := pos + 1;
      if pos == |fields| {
        // After the last field comes the first again
        var _ := Begin();
        return false;
      }
      if prev.htype.Required? {
        requiredFieldIndex := requiredFieldIndex + 1;
      }
      return true;
    }

    /** pb_field_iter_find: walks the whole circle from where it stands; it finds a field of the tag whenever there is
        one. The terminator of an empty array has tag 0.
     */
    method Find(tag: nat) returns (found: bool)
      requires Valid()
      modifies this
      ensures Valid()
      ensures found <==> (fields == [] && tag == 0) || exists i :: 0 <= i < |fields| && fields[i].tag == tag
      ensures found && fields != [] ==> fields[pos].tag == tag
    {
      var start := pos;
      ghost var steps := 0;
      while true
        invariant Valid() && steps <= |fields| && (fields != [] ==> steps < |fields|)
        invariant fields == [] ==> steps == 0
        invariant pos == if start + steps < |fields| || fields == [] then start + steps else start + steps - |fields|
        invariant forall i :: start <= i < start + steps && i < |fields| ==> fields[i].tag != tag
        invariant forall i :: 0 <= i < start + steps - |fields| ==> fields[i].tag != tag
        decreases |fields| - steps
      {
        if (if fields == [] then tag == 0 else fields[pos].tag == tag) {
          // It has the tag
          return true;
        }
        var _ := Next();
        steps := steps + 1;
        if pos == start {
          break;
        }
      }
      // One full round, and none has the tag.
      return false;
    }
  }
}
