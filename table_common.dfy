/**
 * What the dashboard tables have in common: the filter object that `handleFilterChange` spreads,
 * the `hidden` column filter, the pagination state, the created-at date rewrite and the
 * created-by first name.
 */
module TableCommon {
  import opened Wrappers
  import JsText

  /** A filter control's value: text, a cleared date (`null`) or a picked date range. */
  datatype FilterValue = Null | TextValue(text: string) | DateRange(from: string, to: string)

  /** The component's filter object, by key. */
  type Filters = map<string, FilterValue>

  /**
   * `{ ...prevFilters, [filterType]: values }`: the one key takes the new value and every other
   * key keeps its own.
   */
  function WithFilter(filters: Filters, key: string, value: FilterValue): (r: Filters)
    ensures r.Keys == filters.Keys + {key}
    ensures r[key] == value
    ensures forall k :: k in filters && k != key ==> r[k] == filters[k]
  {
    filters[key := value]
  }

  /** Setting a key twice keeps only the second value; setting two different keys commutes. */
  lemma WithFilterTwice(filters: Filters, key: string, other: string, v: FilterValue, w: FilterValue)
    ensures WithFilter(WithFilter(filters, key, v), key, w) == WithFilter(filters, key, w)
    ensures key != other ==>
      WithFilter(WithFilter(filters, key, v), other, w) == WithFilter(WithFilter(filters, other, w), key, v)
  {
  }

  /** A column of an Ant Design table, as far as the `hidden` filter looks at it. */
  datatype Column = Column(title: string, key: string, hidden: bool)

  /** `columns.filter((column) => !column.hidden)`. */
  function Visible(cols: seq<Column>): (r: seq<Column>)
    ensures |r| <= |cols|
    ensures forall i :: 0 <= i < |r| ==> !r[i].hidden && r[i] in cols
    ensures forall i :: 0 <= i < |cols| && !cols[i].hidden ==> cols[i] in r
  {
    if cols == [] then []
    else (if cols[0].hidden then [] else [cols[0]]) + Visible(cols[1..])
  }

  /**
   * The filter works piece by piece and keeps order: the visible columns of two runs are the
   * visible columns of the first followed by those of the second.
   */
  lemma {:induction false} VisibleAppend(a: seq<Column>, b: seq<Column>)
    ensures Visible(a + b) == Visible(a) + Visible(b)
  {
    if a == [] {
      assert a + b == b;
    } else {
      assert (a + b)[0] == a[0] && (a + b)[1..] == a[1..] + b;
      VisibleAppend(a[1..], b);
      var head := if a[0].hidden then [] else [a[0]];
      assert Visible(a + b) == head + (Visible(a[1..]) + Visible(b));
    }
  }

  /** A table with no hidden column shows all of them, in order. */
  lemma {:induction false} VisibleAll(cols: seq<Column>)
    requires forall i :: 0 <= i < |cols| ==> !cols[i].hidden
    ensures Visible(cols) == cols
  {
    if cols != [] {
      VisibleAll(cols[1..]);
    }
  }

  /** A leading hidden column (the tables' internal `id`) is dropped and nothing else is. */
  lemma HiddenFirstDropped(first: Column, rest: seq<Column>)
    requires first.hidden
    requires forall i :: 0 <= i < |rest| ==> !rest[i].hidden
    ensures Visible([first] + rest) == rest
  {
    VisibleAll(rest);
    assert ([first] + rest)[1..] == rest;
  }

  /** The part of Ant Design's `TablePaginationConfig` the tables set. */
  datatype Pagination = Pagination(current: int, pageSize: int, total: Option<int>)

  /** Every table starts on page 1, ten rows a page. */
  const FirstPage: Pagination := Pagination(1, 10, None)

  /** `s.replace(/T|Z/g, (match) => (match === 'T' ? ' ' : ''))`. */
  function ReplaceTZ(s: string): (r: string)
    ensures 'T' !in r && 'Z' !in r
    ensures |r| <= |s|
  {
    if s == [] then []
    else (if s[0] == 'T' then " " else if s[0] == 'Z' then "" else [s[0]]) + ReplaceTZ(s[1..])
  }

  lemma {:induction false} ReplaceTZAppend(a: string, b: string)
    ensures ReplaceTZ(a + b) == ReplaceTZ(a) + ReplaceTZ(b)
  {
    if a == [] {
      assert a + b == b;
    } else {
      assert (a + b)[0] == a[0] && (a + b)[1..] == a[1..] + b;
      ReplaceTZAppend(a[1..], b);
      var head := if a[0] == 'T' then " " else if a[0] == 'Z' then "" else [a[0]];
      assert ReplaceTZ(a + b) == head + (ReplaceTZ(a[1..]) + ReplaceTZ(b));
    }
  }

  lemma {:induction false} ReplaceTZKeeps(s: string)
    requires 'T' !in s && 'Z' !in s
    ensures ReplaceTZ(s) == s
  {
    if s != [] {
      ReplaceTZKeeps(s[1..]);
    }
  }

  /** `.replace(/\.\d{3}$/, '')`: a final dot followed by exactly three digits is removed. */
  function StripMillis(s: string): (r: string)
    ensures r <= s
    ensures |r| == |s| || |r| == |s| - 4
  {
    if |s| >= 4 && s[|s| - 4] == '.' && JsText.AllDigits(s[|s| - 3..]) then s[..|s| - 4] else s
  }

  /**
   * The created-at cell: `created_at?.replace(...).replace(...) || 'No Date'`. `None` is a
   * missing value, and an empty result also shows "No Date".
   */
  function DateDisplay(createdAt: Option<string>): (r: string)
    ensures 'T' !in r && 'Z' !in r
    ensures r != ""
    ensures createdAt.None? || createdAt == Some("") ==> r == "No Date"
  {
    if createdAt.None? then "No Date"
    else
      var shown := StripMillis(ReplaceTZ(createdAt.value));
      assert 'T' !in shown && 'Z' !in shown by {
        assert forall c :: c in shown ==> c in ReplaceTZ(createdAt.value);
      }
      if shown == "" then "No Date" else shown
  }

  lemma ReplaceTZOne(c: char)
    ensures ReplaceTZ([c]) == if c == 'T' then " " else if c == 'Z' then "" else [c]
  {
    assert [c][1..] == [];
  }

  /** The T/Z rewrite of an ISO timestamp puts a space for the `T` and drops the `Z`. */
  lemma IsoReplaced(date: string, time: string, ms: string)
    requires 'T' !in date && 'Z' !in date && 'T' !in time && 'Z' !in time
    requires JsText.AllDigits(ms)
    ensures ReplaceTZ(date + "T" + time + "." + ms + "Z") == date + " " + time + "." + ms
  {
    assert 'T' !in ms && 'Z' !in ms by {
      assert forall k :: 0 <= k < |ms| ==> JsText.IsDigit(ms[k]);
    }
    var a1 := date + "T";
    ReplaceTZAppend(date, "T");
    ReplaceTZKeeps(date);
    ReplaceTZOne('T');
    assert ReplaceTZ(a1) == date + " ";
    var a2 := a1 + time;
    ReplaceTZAppend(a1, time);
    ReplaceTZKeeps(time);
    assert ReplaceTZ(a2) == date + " " + time;
    var a3 := a2 + ".";
    ReplaceTZAppend(a2, ".");
    ReplaceTZOne('.');
    assert ReplaceTZ(a3) == date + " " + time + ".";
    var a4 := a3 + ms;
    ReplaceTZAppend(a3, ms);
    ReplaceTZKeeps(ms);
    assert ReplaceTZ(a4) == date + " " + time + "." + ms;
    ReplaceTZAppend(a4, "Z");
    ReplaceTZOne('Z');
  }

  lemma StripMillisOf(prefix: string, ms: string)
    requires |ms| == 3 && JsText.AllDigits(ms)
    ensures StripMillis(prefix + "." + ms) == prefix
  {
    var s := prefix + "." + ms;
    assert s[|s| - 4] == '.' && s[|s| - 3..] == ms;
    assert s[..|s| - 4] == prefix;
  }

  /**
   * An ISO timestamp `date + "T" + time + "." + ms + "Z"` with three-digit milliseconds is shown
   * as `date + " " + time`: "2024-05-01T10:20:30.123Z" becomes "2024-05-01 10:20:30".
   */
  lemma IsoTimestampShown(date: string, time: string, ms: string)
    requires 'T' !in date && 'Z' !in date && 'T' !in time && 'Z' !in time
    requires |ms| == 3 && JsText.AllDigits(ms)
    ensures DateDisplay(Some(date + "T" + time + "." + ms + "Z")) == date + " " + time
  {
    IsoReplaced(date, time, ms);
    StripMillisOf(date + " " + time, ms);
  }

  /** `user?.name.split(' ')[0]`: the first space-separated word, or nothing without a user. */
  function FirstName(user: Option<string>): (r: Option<string>)
    ensures r.Some? <==> user.Some?
    ensures r.Some? ==> r.value <= user.value && ' ' !in r.value
    ensures r.Some? && |r.value| < |user.value| ==> user.value[|r.value|] == ' '
  {
    if user.None? then None
    else
      FirstPieceIsPrefix(user.value, ' ');
      Some(JsText.Split(user.value, ' ')[0])
  }

  /** The first piece of a split is the text up to the first separator. */
  lemma {:induction false} FirstPieceIsPrefix(s: string, sep: char)
    ensures JsText.Split(s, sep)[0] <= s
    ensures |JsText.Split(s, sep)[0]| < |s| ==> s[|JsText.Split(s, sep)[0]|] == sep
  {
    if s != [] && s[0] != sep {
      FirstPieceIsPrefix(s[1..], sep);
    }
  }

  /** A name without a space is shown whole; otherwise the text before the first space. */
  lemma FirstNameOf(first: string, rest: string)
    requires ' ' !in first
    ensures FirstName(Some(first)) == Some(first)
    ensures FirstName(Some(first + " " + rest)) == Some(first)
  {
    JsText.SplitNoSep(first, ' ');
    JsText.SplitPrefix(first, rest, ' ');
    assert first + " " + rest == first + ([' '] + rest);
  }
}
