/** Small string helpers standing in for Go's `strings`, `path/filepath` and `fmt` packages. */
module Strings {

  /** `strings.HasPrefix(s, prefix)`. */
  predicate HasPrefix(s: string, prefix: string)
  {
    |prefix| <= |s| && s[..|prefix|] == prefix
  }

  /** Every `.` in `path` has a `/` somewhere after it: the final path element has no `.`. */
  predicate DotlessLastElement(path: string)
  {
    forall i :: 0 <= i < |path| && path[i] == '.' ==> exists j :: i < j < |path| && path[j] == '/'
  }

  /** Lemma: appending a `/` ends the element; appending a plain character keeps its dots. */
  lemma DotlessAppend(init: string, c: char)
    requires c != '.'
    ensures DotlessLastElement(init + [c]) <==> c == '/' || DotlessLastElement(init)
  {
    var path := init + [c];
    if c == '/' {
      forall i | 0 <= i < |path| && path[i] == '.'
        ensures exists j :: i < j < |path| && path[j] == '/'
      {
        assert path[|init|] == '/';
      }
    } else {
      if DotlessLastElement(init) {
        forall i | 0 <= i < |path| && path[i] == '.'
          ensures exists j :: i < j < |path| && path[j] == '/'
        {
          assert init[i] == '.';
          var j :| i < j < |init| && init[j] == '/';
          assert path[j] == '/';
        }
      }
      if DotlessLastElement(path) {
        forall i | 0 <= i < |init| && init[i] == '.'
          ensures exists j :: i < j < |init| && init[j] == '/'
        {
          assert path[i] == '.';
          var j :| i < j < |path| && path[j] == '/';
          assert init[j] == '/';
        }
      }
    }
  }

  /**
   * `filepath.Ext` with `/` as the separator: the suffix that starts at the last `.` of the
   * final path element, or "" when that element has no `.`.
   */
  function Ext(path: string): (e: string)
    ensures |e| <= |path| && e == path[|path| - |e|..]
    ensures e != [] ==> e[0] == '.' && forall i :: 0 < i < |e| ==> e[i] != '.' && e[i] != '/'
    ensures e == [] <==> DotlessLastElement(path)
  {
    if path == [] then []
    else
      var last := path[|path| - 1];
      var init := path[..|path| - 1];
      assert path == init + [last];
      if last == '.' then
        assert path[|path| - 1] == '.';
        "."
      else
        DotlessAppend(init, last);
        if last == '/' then []
        else
          var e := Ext(init);
          if e == [] then []
          else
            assert init[|init| - |e|..] + [last] == path[|path| - |e| - 1..];
            e + [last]
  }

  /** A lower-case ASCII letter for an upper-case one, any other character unchanged. */
  function LowerChar(c: char): char
  {
    if 'A' <= c <= 'Z' then (c as int + 32) as char else c
  }

  /**
   * `strings.ToLower`, on the ASCII letters. Whether the result equals an ASCII string with
   * no `i` and no `k` is decided exactly, since the only characters outside ASCII that lower
   * into it are the dotted capital I and the Kelvin sign.
   */
  function Lower(s: string): (r: string)
    ensures |r| == |s|
    ensures forall i :: 0 <= i < |s| ==> r[i] == LowerChar(s[i])
  {
    seq(|s|, i requires 0 <= i < |s| => LowerChar(s[i]))
  }

  /** The number a string of decimal digits stands for, most significant digit first. */
  function DigitsValue(s: string): int
  {
    if s == [] then 0 else DigitsValue(s[..|s| - 1]) * 10 + (s[|s| - 1] as int - '0' as int)
  }

  /** `fmt.Sprintf("%d", n)` for a non-negative `n`: its decimal digits, most significant first. */
  function Decimal(n: nat): (s: string)
    ensures s != []
    ensures forall i :: 0 <= i < |s| ==> '0' <= s[i] <= '9'
    ensures DigitsValue(s) == n
    ensures |s| == 1 || s[0] != '0'
  {
    var digit := ('0' as int + n % 10) as char;
    if n < 10 then
      assert [digit][..0] == [];
      [digit]
    else
      var high := Decimal(n / 10);
      assert (high + [digit])[..|high|] == high;
      high + [digit]
  }

  /** Lemma: whatever precedes it, a `.` followed by neither `.` nor `/` is the extension. */
  lemma {:induction false} ExtOfExtension(prefix: string, e: string)
    requires e != [] && e[0] == '.' && forall i :: 0 < i < |e| ==> e[i] != '.' && e[i] != '/'
    ensures Ext(prefix + e) == e
    decreases |e|
  {
    if |e| == 1 {
      assert (prefix + e)[|prefix + e| - 1] == '.';
    } else {
      var init := e[..|e| - 1];
      ExtOfExtension(prefix, init);
      assert (prefix + e)[..|prefix + e| - 1] == prefix + init;
    }
  }

  /** Lemma: a prefix with no `.` and no `/` does not change the extension of what follows it. */
  lemma ExtIgnoresPlainPrefix(prefix: string, e: string)
    requires forall i :: 0 <= i < |prefix| ==> prefix[i] != '.' && prefix[i] != '/'
    requires e == [] || (e[0] == '.' && forall i :: 0 < i < |e| ==> e[i] != '.' && e[i] != '/')
    ensures Ext(prefix + e) == e
  {
    if e == [] {
      assert prefix + e == prefix;
    } else {
      ExtOfExtension(prefix, e);
    }
  }
}
