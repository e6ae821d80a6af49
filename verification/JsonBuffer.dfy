/** The growable output buffer of src/json_utils.c. */
module JsonBuffer {
  import Json

  const INITIAL_CAPACITY: nat := 256

  function Max(a: nat, b: nat): nat {
    if a < b then b else a
  }

  /** The caller's `*buffer`, `*length` and `*capacity`, and a ghost meter of the bytes
      that reallocation has moved. */
  class Buffer {
    var data: array?<char>
    var length: nat
    var capacity: nat
    ghost var copied: nat

    /** Besides well-formedness this keeps the amortised cost: the capacity is at most twice what
        the text needs, and everything ever moved by reallocation fits in the present capacity. */
    ghost predicate Valid()
      reads this, data
    {
      && (data == null ==> length == 0 && capacity == 0)
      && (data != null ==>
            && data.Length == capacity
            && length < capacity
            && data[length] == '\0'
            && capacity <= Max(256, 2 * (length + 1)))
      && copied <= capacity
    }

    ghost function Contents(): string
      requires Valid()
      reads this, data
    {
      if data == null then "" else data[..length]
    }

    constructor ()
      ensures Valid() && Contents() == "" && data == null && copied == 0
    {
      data, length, capacity, copied := null, 0, 0, 0;
    }

    /** Makes room for `requiredLength` bytes and a terminator, doubling the capacity. */
    method EnsureCapacity(requiredLength: nat)
      requires Valid() && length <= requiredLength
      modifies this
      ensures data != null && data.Length == capacity && requiredLength < capacity
      ensures data == old(data) || fresh(data)
      ensures length == old(length) && data[..length] == old(Contents()) && data[length] == '\0'
      ensures capacity <= Max(old(capacity), Max(INITIAL_CAPACITY, 2 * requiredLength))
      ensures copied <= capacity
      ensures copied == if data == old(data) || old(data) == null then old(copied) else old(copied) + old(capacity)
    {
      if data != null && capacity > requiredLength {
        return;
      }
      var newCapacity := if capacity > 0 then capacity else INITIAL_CAPACITY;
      while newCapacity <= requiredLength
        invariant newCapacity > 0
        invariant newCapacity == capacity || newCapacity >= 2 * capacity
        invariant newCapacity <= Max(capacity, Max(INITIAL_CAPACITY, 2 * requiredLength))
        decreases requiredLength - newCapacity
      {
        newCapacity := newCapacity * 2;
      }
      var newData := new char[newCapacity];
      if data == null {
        newData[0] := '\0';
      } else {
        forall i | 0 <= i < capacity {
          newData[i] := data[i];
        }
        copied := copied + capacity;
      }
      data, capacity := newData, newCapacity;
    }

    method Append(text: string)
      requires Valid()
      modifies this, data
      ensures Valid() && Contents() == old(Contents()) + text
      ensures data != null && (data == old(data) || fresh(data))
    {
      EnsureCapacity(length + |text| + 1);
      forall i | 0 <= i < |text| {
        data[length + i] := text[i];
      }
      length := length + |text|;
      data[length] := '\0';
    }

    /** Appends formatted text. `formatted` is what the format directive produces in full; what
        reaches the buffer is as much of it as fits in the remaining capacity. */
    method Appendf(formatted: string)
      requires Valid()
      modifies this, data
      ensures Valid() && Contents() == old(Contents()) + formatted
      ensures data != null && (data == old(data) || fresh(data))
    {
      EnsureCapacity(length + |formatted| + 1);
      var room := capacity - length;
      var written := if |formatted| < room then |formatted| else room - 1;
      forall i | 0 <= i < written {
        data[length + i] := formatted[i];
      }
      data[length + written] := '\0';
      length := length + |formatted|;
    }

    method AppendEscaped(text: string)
      requires Valid()
      modifies this, data
      ensures Valid() && Contents() == old(Contents()) + Json.Escape(text)
      ensures data == old(data) || fresh(data)
      ensures data == null ==> text == ""
    {
      ghost var before := Contents();
      assert text[..0] == "" && before == before + Json.Escape("");
      hide *;
      var cursor := 0;
      while cursor < |text|
        invariant 0 <= cursor <= |text|
        invariant Valid() && Contents() == before + Json.Escape(text[..cursor])
        invariant data == old(data) || fresh(data)
        invariant data == null ==> cursor == 0
      {
        AppendEscapedChar(text[cursor]);
        EscapeStep(before, text, cursor);
        cursor := cursor + 1;
      }
      assert text[..|text|] == text;
    }

    /** The finished text, as it is handed on. */
    method Text() returns (text: string)
      requires Valid()
      ensures text == Contents()
    {
      text := if data == null then "" else data[..length];
    }

    /** The byte before the terminator, which callers read directly. */
    method LastByte() returns (c: char)
      requires Valid() && Contents() != ""
      ensures c == Contents()[|Contents()| - 1]
    {
      c := data[length - 1];
    }

    method AppendEscapedChar(c: char)
      requires Valid()
      modifies this, data
      ensures Valid() && Contents() == old(Contents()) + Json.EscapeChar(c)
      ensures data != null && (data == old(data) || fresh(data))
    {
      match c
      case '\\' => Append("\\\\");
      case '"' => Append("\\\"");
      case '\n' => Append("\\n");
      case '\r' => Append("\\r");
      case '\t' => Append("\\t");
      case _ =>
        if c == 8 as char {
          Append("\\b");
        } else if c == 12 as char {
          Append("\\f");
        } else if c < ' ' {
          Appendf("\\u00" + [Json.HexDigit(c as int / 16), Json.HexDigit(c as int % 16)]);
        } else {
          Append([c]);
        }
    }
  }

  lemma EscapeStep(before: string, text: string, i: nat)
    requires i < |text|
    ensures before + Json.Escape(text[..i]) + Json.EscapeChar(text[i]) == before + Json.Escape(text[..i + 1])
  {
    hide Json.Escape, Json.EscapeChar;
    Json.EscapeSnoc(text, i);
  }
}
