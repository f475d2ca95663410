/**
  A sort descriptor: a column key, a direction and a null ordering, rendered
  as the key between two quotes followed by ASC or DESC.
*/
module SortOn {
  import opened Wrappers

  const ASCENDING := 1
  const DESCENDING := 2
  const DEFAULT_NULL_SORT := 0
  const NULLS_FIRST := 1
  const NULLS_LAST := 2

  datatype SortOn = SortOn(key: string, sort: int, nullSort: int)

  /** The no-argument constructor: every field at its default. */
  function Empty(): (s: SortOn)
    ensures s.key == [] && s.sort == 0 && s.nullSort == DEFAULT_NULL_SORT
  {
    SortOn([], 0, 0)
  }

  /** The two-argument constructor: the null ordering stays at its default. */
  function Make(key: string, sort: int): (s: SortOn)
    ensures s.key == key && s.sort == sort && s.nullSort == DEFAULT_NULL_SORT
  {
    SortOn(key, sort, DEFAULT_NULL_SORT)
  }

  function Ascending(key: string): (s: SortOn)
    ensures s.key == key && s.sort == ASCENDING && s.nullSort == DEFAULT_NULL_SORT
  {
    Make(key, ASCENDING)
  }

  function Descending(key: string): (s: SortOn)
    ensures s.key == key && s.sort == DESCENDING && s.nullSort == DEFAULT_NULL_SORT
  {
    Make(key, DESCENDING)
  }

  /** The direction word: ASC for the ascending code and DESC for every other value. */
  function Direction(sort: int): (w: string)
    ensures w == "ASC" <==> sort == ASCENDING
    ensures w == "ASC" || w == "DESC"
  {
    if sort == ASCENDING then "ASC" else "DESC"
  }

  /** `toString(quote)`: the quoted key, a space and the direction word. */
  function ToStringQuoted(s: SortOn, quote: string): (r: string)
    ensures |r| == 2 * |quote| + |s.key| + 1 + |Direction(s.sort)|
    ensures r[..|quote|] == quote && r[|quote|..|quote| + |s.key|] == s.key
  {
    quote + s.key + quote + " " + Direction(s.sort)
  }

  /** `toString()`: the key unquoted. */
  function ToString(s: SortOn): (r: string)
    ensures r == s.key + " " + Direction(s.sort)
  {
    ToStringQuoted(s, "")
  }

  /**
    Reads a rendering back: the key between the quotes and whether the
    direction is ascending, or nothing when the text is not a rendering.
  */
  function Parse(r: string, quote: string): Option<(string, bool)> {
    var q := |quote|;
    if |r| >= 2 * q + 4 && r[|r| - 4..] == " ASC" then
      Some((r[q..|r| - 4 - q], true))
    else if |r| >= 2 * q + 5 && r[|r| - 5..] == " DESC" then
      Some((r[q..|r| - 5 - q], false))
    else None
  }

  /** A rendering determines the key and whether the sort is ascending. */
  lemma ParseRendering(s: SortOn, quote: string)
    ensures Parse(ToStringQuoted(s, quote), quote) == Some((s.key, s.sort == ASCENDING))
  {
    var q := |quote|;
    var head := quote + s.key + quote;
    var tail := " " + Direction(s.sort);
    var r := head + tail;
    assert ToStringQuoted(s, quote) == r;
    assert r[|head|..] == tail;
    var n := |head| + |tail|;
    assert r[q..|head| - q] == s.key by {
      assert r[..|head|] == head;
      assert head[q..|head| - q] == s.key;
    }
    if s.sort == ASCENDING {
      assert tail == " ASC" && n - 4 == |head|;
    } else {
      assert tail == " DESC" && n - 5 == |head|;
      assert r[n - 4..] == tail[1..];
      assert r[n - 4..] != " ASC" by {
        assert r[n - 4] == 'D';
      }
    }
  }

  /** Two descriptors render alike exactly when their keys agree and both or neither are ascending. */
  lemma RenderingsEqualIff(a: SortOn, b: SortOn, quote: string)
    ensures ToStringQuoted(a, quote) == ToStringQuoted(b, quote)
        <==> a.key == b.key && (a.sort == ASCENDING <==> b.sort == ASCENDING)
  {
    ParseRendering(a, quote);
    ParseRendering(b, quote);
  }

  /** The rendering ignores the null ordering. */
  lemma RenderingIgnoresNullSort(s: SortOn, nullSort: int, quote: string)
    ensures ToStringQuoted(s.(nullSort := nullSort), quote) == ToStringQuoted(s, quote)
  {
  }

  /** `toString()` is `toString("")`. */
  lemma ToStringIsUnquoted(s: SortOn)
    ensures ToString(s) == ToStringQuoted(s, "")
  {
  }

  /** The default and descending descriptors both render DESC, as does any code other than ascending. */
  lemma DescendingUnlessAscending(key: string, sort: int)
    requires sort != ASCENDING
    ensures ToString(Make(key, sort)) == key + " DESC"
    ensures ToString(Descending(key)) == key + " DESC"
    ensures ToString(Empty()) == " DESC"
  {
  }
}
