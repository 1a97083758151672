/** The JavaScript string operations the application relies on:
    `String.prototype.trim`, `split` on one character and `Array.prototype.join`. */
module Text {

  /** The characters `trim` removes: ECMAScript WhiteSpace and LineTerminator. */
  predicate IsWhitespace(c: char) {
    var n := c as int;
    n == 0x09 || n == 0x0A || n == 0x0B || n == 0x0C || n == 0x0D || n == 0x20 ||
    n == 0xA0 || n == 0x1680 || (0x2000 <= n <= 0x200A) || n == 0x2028 || n == 0x2029 ||
    n == 0x202F || n == 0x205F || n == 0x3000 || n == 0xFEFF
  }

  /** A string with no whitespace at either end. */
  predicate Trimmed(s: string) {
    s == [] || (!IsWhitespace(s[0]) && !IsWhitespace(s[|s| - 1]))
  }

  /** Drops leading whitespace: the result is the suffix of `s` that starts at its
      first non-whitespace character. */
  function TrimStart(s: string): (r: string)
    ensures |r| <= |s| && r == s[|s| - |r|..]
    ensures forall k :: 0 <= k < |s| - |r| ==> IsWhitespace(s[k])
    ensures r == [] || !IsWhitespace(r[0])
    decreases |s|
  {
    if |s| > 0 && IsWhitespace(s[0]) then TrimStart(s[1..]) else s
  }

  /** Drops trailing whitespace: the result is the prefix of `s` that ends at its
      last non-whitespace character. */
  function TrimEnd(s: string): (r: string)
    ensures |r| <= |s| && r == s[..|r|]
    ensures forall k :: |r| <= k < |s| ==> IsWhitespace(s[k])
    ensures r == [] || !IsWhitespace(r[|r| - 1])
    decreases |s|
  {
    if |s| > 0 && IsWhitespace(s[|s| - 1]) then TrimEnd(s[..|s| - 1]) else s
  }

  /** `r` is the piece of `s` that starts at `i`, and everything around it is whitespace. */
  predicate WhitespaceAround(s: string, i: int, r: string) {
    0 <= i <= |s| - |r| && r == s[i..i + |r|] &&
    (forall k :: 0 <= k < i ==> IsWhitespace(s[k])) &&
    (forall k :: i + |r| <= k < |s| ==> IsWhitespace(s[k]))
  }

  /** `s.trim()`: a piece of `s` with no whitespace at its ends (what is cut away is
      stated by `TrimCutsWhitespace`). */
  function Trim(s: string): (r: string)
    ensures Trimmed(r) && |r| <= |s|
  {
    var t := TrimStart(s);
    var r := TrimEnd(t);
    assert r != [] ==> r[0] == t[0];
    r
  }

  /** `trim` keeps a contiguous piece of `s` and cuts away only whitespace on both sides. */
  lemma TrimCutsWhitespace(s: string)
    ensures exists i :: WhitespaceAround(s, i, Trim(s))
  {
    var t := TrimStart(s);
    var r := TrimEnd(t);
    assert Trim(s) == r;
    var i := |s| - |t|;
    WhitespaceAroundPieces(s, t, r, i);
  }

  /** Cutting whitespace from the front of `s` and then from the back of what remains
      leaves a piece with whitespace around it. */
  lemma WhitespaceAroundPieces(s: string, t: string, r: string, i: int)
    requires 0 <= i <= |s| && t == s[i..] && |r| <= |t| && r == t[..|r|]
    requires forall k :: 0 <= k < i ==> IsWhitespace(s[k])
    requires forall k :: |r| <= k < |t| ==> IsWhitespace(t[k])
    ensures WhitespaceAround(s, i, r)
  {
    assert r == s[i..i + |r|];
    forall k | i + |r| <= k < |s| ensures IsWhitespace(s[k]) {
      assert s[k] == t[k - i];
    }
  }

  /** A string that is already trimmed is left as it is. */
  lemma TrimOfTrimmed(s: string)
    requires Trimmed(s)
    ensures Trim(s) == s
  {
  }

  /** `trim` is idempotent. */
  lemma TrimIdempotent(s: string)
    ensures Trim(Trim(s)) == Trim(s)
  {
    TrimOfTrimmed(Trim(s));
  }

  /** `trim` only removes characters: a character absent from `s` is absent from `trim(s)`. */
  lemma TrimAvoids(s: string, c: char)
    requires c !in s
    ensures c !in Trim(s)
  {
    var r := Trim(s);
    TrimCutsWhitespace(s);
    var i :| WhitespaceAround(s, i, r);
    forall k | 0 <= k < |r| ensures r[k] != c {
      assert r[k] == s[i + k];
    }
  }

  /** Whitespace put in front of a string does not survive `trim`. */
  lemma {:induction false} TrimLeadingWhitespace(w: string, s: string)
    requires forall k :: 0 <= k < |w| ==> IsWhitespace(w[k])
    ensures Trim(w + s) == Trim(s)
    decreases |w|
  {
    if w != [] {
      assert (w + s)[1..] == w[1..] + s;
      TrimLeadingWhitespace(w[1..], s);
    } else {
      assert w + s == s;
    }
  }

  /** `Trim(s)` is empty exactly when every character of `s` is whitespace. */
  lemma TrimEmptyIff(s: string)
    ensures Trim(s) == [] <==> forall k :: 0 <= k < |s| ==> IsWhitespace(s[k])
  {
  }

  /** `s.split(sep)`: the pieces between occurrences of `sep`, always at least one. */
  function Split(s: string, sep: char): (r: seq<string>)
    ensures |r| >= 1
    ensures forall i :: 0 <= i < |r| ==> sep !in r[i]
    decreases |s|
  {
    if s == [] then [""]
    else
      var rest := Split(s[1..], sep);
      if s[0] == sep then [""] + rest
      else [[s[0]] + rest[0]] + rest[1..]
  }

  /** `xs.join(sep)`: the items with `sep` between consecutive ones; `[].join(sep)` is "". */
  function Join(xs: seq<string>, sep: string): string
    decreases |xs|
  {
    if xs == [] then ""
    else if |xs| == 1 then xs[0]
    else xs[0] + sep + Join(xs[1..], sep)
  }

  /** A join is as long as its items together plus one separator between each two. */
  lemma {:induction false} JoinLength(xs: seq<string>, sep: string)
    requires xs != []
    ensures |Join(xs, sep)| == TotalLength(xs) + (|xs| - 1) * |sep|
    decreases |xs|
  {
    if |xs| > 1 {
      JoinLength(xs[1..], sep);
    }
  }

  /** The summed length of the items. */
  function TotalLength(xs: seq<string>): nat
    decreases |xs|
  {
    if xs == [] then 0 else |xs[0]| + TotalLength(xs[1..])
  }

  /** A character found in none of the items and not in the separator is not in their join. */
  lemma {:induction false} JoinAvoids(xs: seq<string>, sep: string, c: char)
    requires c !in sep
    requires forall i :: 0 <= i < |xs| ==> c !in xs[i]
    ensures c !in Join(xs, sep)
    decreases |xs|
  {
    if |xs| > 1 {
      JoinAvoids(xs[1..], sep, c);
    }
  }

  /** Splitting and joining back with the same character restores the string. */
  lemma {:induction false} JoinSplit(s: string, sep: char)
    ensures Join(Split(s, sep), [sep]) == s
    decreases |s|
  {
    if s != [] {
      var rest := Split(s[1..], sep);
      JoinSplit(s[1..], sep);
      if s[0] == sep {
        assert Split(s, sep) == [""] + rest;
        assert ([""] + rest)[1..] == rest;
      } else {
        var r := Split(s, sep);
        assert r == [[s[0]] + rest[0]] + rest[1..];
        if |rest| == 1 {
          assert s == [s[0]] + s[1..];
        } else {
          assert r[1..] == rest[1..];
          assert Join(rest, [sep]) == rest[0] + [sep] + Join(rest[1..], [sep]);
          assert s == [s[0]] + s[1..];
        }
      }
    }
  }

  /** Joining pieces that do not contain the separator and splitting again gives the pieces. */
  lemma {:induction false} SplitJoin(xs: seq<string>, sep: char)
    requires |xs| >= 1
    requires forall i :: 0 <= i < |xs| ==> sep !in xs[i]
    ensures Split(Join(xs, [sep]), sep) == xs
    decreases |xs|, |xs[0]|
  {
    if |xs[0]| > 0 {
      var x := xs[0];
      var ys := [x[1..]] + xs[1..];
      assert ys[0] == x[1..] && ys[1..] == xs[1..];
      assert forall i :: 1 <= i < |ys| ==> ys[i] == xs[i];
      SplitJoin(ys, sep);
      var j := Join(xs, [sep]);
      if |xs| == 1 {
        assert j == x && j[1..] == Join(ys, [sep]);
      } else {
        assert j == x + [sep] + Join(xs[1..], [sep]);
        assert j[1..] == x[1..] + [sep] + Join(xs[1..], [sep]) == Join(ys, [sep]);
      }
      assert j[0] == x[0] && j[0] != sep;
      assert [x[0]] + x[1..] == x;
      assert Split(j, sep) == [[x[0]] + x[1..]] + xs[1..];
    } else if |xs| > 1 {
      SplitJoin(xs[1..], sep);
      var j := Join(xs, [sep]);
      assert j == [sep] + Join(xs[1..], [sep]);
      assert j[1..] == Join(xs[1..], [sep]);
      assert xs == [""] + xs[1..];
    }
  }

  /** The number of times `c` occurs in `s`. */
  function Count(s: string, c: char): (n: nat)
    ensures n <= |s|
    ensures n == 0 <==> c !in s
  {
    if s == [] then 0 else (if s[0] == c then 1 else 0) + Count(s[1..], c)
  }

  /** Splitting yields one more piece than there are separators. */
  lemma {:induction false} SplitCount(s: string, sep: char)
    ensures |Split(s, sep)| == Count(s, sep) + 1
    decreases |s|
  {
    if s != [] {
      SplitCount(s[1..], sep);
    }
  }

  /** `xs.map((item) => item.trim()).filter((item) => item.length > 0)`. */
  function CleanItems(xs: seq<string>): (r: seq<string>)
    ensures |r| <= |xs|
    ensures forall i :: 0 <= i < |r| ==> r[i] != [] && Trimmed(r[i])
    decreases |xs|
  {
    if xs == [] then [] else CleanHead(xs[0]) + CleanItems(xs[1..])
  }

  /** What one item contributes to the cleaned list: its trimmed text, unless that is empty. */
  function CleanHead(x: string): seq<string> {
    var t := Trim(x);
    if t == [] then [] else [t]
  }

  /** Concatenation is associative (stated once, for the proofs that need the regrouping). */
  lemma AppendAssoc<T>(a: seq<T>, b: seq<T>, c: seq<T>)
    ensures a + b + c == a + (b + c)
  {
  }

  /** Cleaning works item by item: it distributes over concatenation, which together with
      the one-item case says the survivors keep their original relative order. */
  lemma {:induction false} CleanItemsAppend(a: seq<string>, b: seq<string>)
    ensures CleanItems(a + b) == CleanItems(a) + CleanItems(b)
    decreases |a|
  {
    if a == [] {
      assert a + b == b;
    } else {
      var ab := a + b;
      assert ab[0] == a[0] && ab[1..] == a[1..] + b;
      CleanItemsAppend(a[1..], b);
      AppendAssoc(CleanHead(a[0]), CleanItems(a[1..]), CleanItems(b));
    }
  }

  /** One item survives cleaning, trimmed, exactly when it is not all whitespace. */
  lemma CleanItemsSingle(x: string)
    ensures CleanItems([x]) == if Trim(x) == [] then [] else [Trim(x)]
  {
    assert [x][1..] == [];
  }

  /** Cleaning leaves nothing exactly when every item is blank after trimming. */
  lemma {:induction false} CleanItemsEmptyIff(xs: seq<string>)
    ensures CleanItems(xs) == [] <==> forall i :: 0 <= i < |xs| ==> Trim(xs[i]) == []
    decreases |xs|
  {
    if xs != [] {
      var rest := xs[1..];
      CleanItemsEmptyIff(rest);
      var h := CleanHead(xs[0]);
      assert CleanItems(xs) == h + CleanItems(rest);
      if forall i :: 0 <= i < |xs| ==> Trim(xs[i]) == [] {
        assert Trim(xs[0]) == [];
        forall i | 0 <= i < |rest| ensures Trim(rest[i]) == [] {
          assert rest[i] == xs[i + 1];
        }
      } else {
        var j :| 0 <= j < |xs| && Trim(xs[j]) != [];
        if j == 0 {
          assert h != [];
        } else {
          assert rest[j - 1] == xs[j];
        }
      }
    }
  }

  /** Items that are already trimmed and non-empty pass through cleaning untouched. */
  lemma {:induction false} CleanItemsOfClean(xs: seq<string>)
    requires forall i :: 0 <= i < |xs| ==> xs[i] != [] && Trimmed(xs[i])
    ensures CleanItems(xs) == xs
    decreases |xs|
  {
    if xs != [] {
      TrimOfTrimmed(xs[0]);
      CleanItemsOfClean(xs[1..]);
    }
  }

  /** Cleaning is idempotent. */
  lemma CleanItemsIdempotent(xs: seq<string>)
    ensures CleanItems(CleanItems(xs)) == CleanItems(xs)
  {
    CleanItemsOfClean(CleanItems(xs));
  }
}
