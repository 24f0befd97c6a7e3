/**
 * Video-size discovery: the width and height found in the caps of the
 * Wayland sink's pad, and the fallback size used by the fixed-size window.
 */
module VideoSize {
  import opened Wrappers

  /** A GValue, as far as the size discovery cares: a G_TYPE_INT, or something else. */
  datatype FieldValue = IntValue(n: int) | OtherValue

  /** One field of a GstStructure: its name and its value. */
  datatype Field = Field(name: string, value: FieldValue)

  /** A GstStructure is its fields in order; caps are their structures in order. */
  type Structure = seq<Field>
  type Caps = seq<Structure>

  datatype Size = Size(width: int, height: int)

  /** The size before any field has been seen. */
  const Unknown: Size := Size(0, 0)

  /** The size the fixed-size window uses when the discovered one is degenerate. */
  const FallbackSize: Size := Size(640, 480)

  /** `strncmp(s, p, |p|) == 0` for a NUL-free `p`: `s` starts with `p`. */
  predicate HasPrefix(s: string, p: string)
  {
    |p| <= |s| && s[..|p|] == p
  }

  /**
   * The foreach callback on one field: an int field whose name starts with
   * "width" sets the width; otherwise an int field whose name starts with
   * "height" sets the height; any other field changes nothing.
   */
  function PrintField(size: Size, f: Field): Size
  {
    if HasPrefix(f.name, "width") && f.value.IntValue? then size.(width := f.value.n)
    else if HasPrefix(f.name, "height") && f.value.IntValue? then size.(height := f.value.n)
    else size
  }

  /** The size after the callback has run over `fields` in order. */
  function FoldFields(size: Size, fields: seq<Field>): Size
    decreases |fields|
  {
    if fields == [] then size
    else PrintField(FoldFields(size, fields[..|fields| - 1]), fields[|fields| - 1])
  }

  /** The size after the callback has run over every field of every structure of `caps`, in order. */
  function FoldCaps(size: Size, caps: Caps): Size
    decreases |caps|
  {
    if caps == [] then size
    else FoldFields(FoldCaps(size, caps[..|caps| - 1]), caps[|caps| - 1])
  }

  /** All fields of all structures, in order. */
  function Flatten(caps: Caps): (fields: seq<Field>)
    decreases |caps|
  {
    if caps == [] then [] else Flatten(caps[..|caps| - 1]) + caps[|caps| - 1]
  }

  /** The value of the last int field of `fields` whose name starts with `prefix`, if there is one. */
  function LastInt(fields: seq<Field>, prefix: string): Option<int>
    decreases |fields|
  {
    if fields == [] then None
    else
      var f := fields[|fields| - 1];
      if HasPrefix(f.name, prefix) && f.value.IntValue? then Some(f.value.n)
      else LastInt(fields[..|fields| - 1], prefix)
  }

  /**
   * Later fields override earlier ones: after the callback has run over
   * `fields`, the width is that of the last int "width…" field and the
   * height that of the last int "height…" field, each left as it was when
   * there is no such field.
   */
  lemma {:induction false} FoldFieldsLastWins(size: Size, fields: seq<Field>)
    ensures FoldFields(size, fields).width == LastInt(fields, "width").GetOr(size.width)
    ensures FoldFields(size, fields).height == LastInt(fields, "height").GetOr(size.height)
    decreases |fields|
  {
    if fields != [] {
      var init := fields[..|fields| - 1];
      var f := fields[|fields| - 1];
      FoldFieldsLastWins(size, init);
      if HasPrefix(f.name, "height") {
        // A field name cannot start with both "width" and "height".
        assert f.name[0] == "height"[0] != "width"[0];
        assert !HasPrefix(f.name, "width");
      }
    }
  }

  /** Running the callback over two runs of fields is running it over their concatenation. */
  lemma {:induction false} FoldFieldsAppend(size: Size, xs: seq<Field>, ys: seq<Field>)
    ensures FoldFields(FoldFields(size, xs), ys) == FoldFields(size, xs + ys)
    decreases |ys|
  {
    if ys != [] {
      var zs := xs + ys;
      FoldFieldsAppend(size, xs, ys[..|ys| - 1]);
      assert zs[..|zs| - 1] == xs + ys[..|ys| - 1];
      assert zs[|zs| - 1] == ys[|ys| - 1];
    } else {
      assert xs + ys == xs;
    }
  }

  /** Walking the caps structure by structure is walking all their fields in one run. */
  lemma {:induction false} FoldCapsFlat(size: Size, caps: Caps)
    ensures FoldCaps(size, caps) == FoldFields(size, Flatten(caps))
    decreases |caps|
  {
    if caps != [] {
      var init := caps[..|caps| - 1];
      FoldCapsFlat(size, init);
      FoldFieldsAppend(size, Flatten(init), caps[|caps| - 1]);
    }
  }

  /**
   * The size found in the caps of the sink pad, as msg_structure_change walks
   * them: every structure in turn, and in each every field in turn, starting
   * from 0 x 0. The result is the last int "width…" and "height…" value
   * across all structures, or 0 where there is none.
   */
  method DiscoverSize(caps: Caps) returns (size: Size)
    ensures size == FoldCaps(Unknown, caps)
    ensures size.width == LastInt(Flatten(caps), "width").GetOr(0)
    ensures size.height == LastInt(Flatten(caps), "height").GetOr(0)
  {
    size := Unknown;
    var i := 0;
    while i < |caps|
      invariant 0 <= i <= |caps|
      invariant size == FoldCaps(Unknown, caps[..i])
    {
      var structure := caps[i];
      var j := 0;
      while j < |structure|
        invariant 0 <= j <= |structure|
        invariant size == FoldFields(FoldCaps(Unknown, caps[..i]), structure[..j])
      {
        assert structure[..j + 1][..j] == structure[..j];
        size := PrintField(size, structure[j]);
        j := j + 1;
      }
      assert structure[..j] == structure;
      assert caps[..i + 1][..i] == caps[..i];
      i := i + 1;
    }
    assert caps[..i] == caps;
    FoldCapsFlat(Unknown, caps);
    FoldFieldsLastWins(Unknown, Flatten(caps));
  }

  /**
   * The fixed-size window's guard: in no-fullscreen mode a size with either
   * side at most 200 is replaced by 640 x 480; otherwise the size is kept.
   */
  function Fallback(size: Size, noFullscreen: bool): (r: Size)
    ensures !noFullscreen ==> r == size
    ensures noFullscreen ==> r.width > 200 && r.height > 200
    ensures size.width > 200 && size.height > 200 ==> r == size
    ensures r != size ==> r == FallbackSize
  {
    if noFullscreen && (200 >= size.width || 200 >= size.height) then FallbackSize else size
  }
}
