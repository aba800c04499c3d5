/** The string handling the interpreter relies on: `strtok(s, " ")` word
    splitting, `strstr` substring search and the first-word extraction used
    by the header and import directives. Strings are `seq<char>`. */
module Text {
  import opened Base

  /** Length of the leading run of non-space characters of `s`. */
  function WordEnd(s: string): (n: nat)
    ensures n <= |s|
    ensures forall k :: 0 <= k < n ==> s[k] != ' '
    ensures n < |s| ==> s[n] == ' '
  {
    if s == [] || s[0] == ' ' then 0 else 1 + WordEnd(s[1..])
  }

  /** The three properties of `WordEnd` determine it. */
  lemma {:induction false} WordEndIs(s: string, n: nat)
    requires n <= |s|
    requires forall k :: 0 <= k < n ==> s[k] != ' '
    requires n < |s| ==> s[n] == ' '
    ensures WordEnd(s) == n
  {
    if n > 0 {
      WordEndIs(s[1..], n - 1);
    }
  }

  /** The words `strtok(s, " ")` returns one after the other: maximal runs of
      characters other than the single space character. Tabs, carriage
      returns and other whitespace stay inside words. */
  function Tokenize(s: string): seq<string>
    decreases |s|
  {
    if s == [] then []
    else if s[0] == ' ' then Tokenize(s[1..])
    else
      var n := WordEnd(s);
      [s[..n]] + Tokenize(s[n..])
  }

  /** Every token is a non-empty run of non-space characters. */
  lemma {:induction false} TokenizeWords(s: string)
    ensures forall k :: 0 <= k < |Tokenize(s)| ==> IsWord(Tokenize(s)[k])
    decreases |s|
  {
    if s != [] {
      if s[0] == ' ' {
        TokenizeWords(s[1..]);
      } else {
        var n := WordEnd(s);
        TokenizeWords(s[n..]);
        assert IsWord(s[..n]) by {
          forall c | c in s[..n]
            ensures c != ' '
          {
          }
        }
      }
    }
  }

  /** A space at position `i` is skipped. */
  lemma SkipSpace(s: string, i: nat)
    requires i < |s| && s[i] == ' '
    ensures Tokenize(s[i..]) == Tokenize(s[i + 1..])
  {
    assert s[i..][1..] == s[i + 1..];
  }

  /** A maximal run of non-space characters from position `i` to `j` is the
      next word. */
  lemma {:induction false} WordAt(s: string, i: nat, j: nat)
    requires i < j <= |s|
    requires forall k :: i <= k < j ==> s[k] != ' '
    requires j < |s| ==> s[j] == ' '
    ensures Tokenize(s[i..]) == [s[i..j]] + Tokenize(s[j..])
  {
    var t := s[i..];
    forall k | 0 <= k < j - i
      ensures t[k] != ' '
    {
      assert t[k] == s[i + k];
    }
    WordEndIs(t, j - i);
    assert t[..j - i] == s[i..j];
    assert t[j - i..] == s[j..];
  }

  /** The words joined by single spaces, the inverse of `Tokenize`. */
  function JoinWords(ws: seq<string>): string
  {
    if ws == [] then []
    else if |ws| == 1 then ws[0]
    else ws[0] + " " + JoinWords(ws[1..])
  }

  predicate IsWord(w: string)
  {
    w != [] && ' ' !in w
  }

  /** A word on its own tokenises to itself. */
  lemma {:induction false} TokenizeWord(w: string)
    requires IsWord(w)
    ensures Tokenize(w) == [w]
  {
    assert forall k :: 0 <= k < |w| ==> w[k] != ' ' by {
      forall k | 0 <= k < |w| ensures w[k] != ' ' { assert w[k] in w; }
    }
    var n := WordEnd(w);
    assert w[..n] == w && w[n..] == [];
  }

  /** A space separates words: what comes before it and what comes after it
      tokenise independently. */
  lemma {:induction false} TokenizeConcat(a: string, b: string)
    ensures Tokenize(a + " " + b) == Tokenize(a) + Tokenize(b)
    decreases |a|
  {
    var s := a + " " + b;
    if a == [] {
      assert s[1..] == b;
    } else if a[0] == ' ' {
      assert s[1..] == a[1..] + " " + b;
      TokenizeConcat(a[1..], b);
    } else {
      var n := WordEnd(s);
      var na := WordEnd(a);
      assert n == na by {
        assert forall k :: 0 <= k < na ==> s[k] == a[k];
        if na < |a| {
          assert s[na] == a[na];
        } else {
          assert s[na] == ' ';
        }
      }
      assert s[..n] == a[..na];
      assert s[n..] == a[na..] + " " + b;
      TokenizeConcat(a[na..], b);
    }
  }

  /** Splitting words joined by single spaces gives the words back. */
  lemma {:induction false} TokenizeJoin(ws: seq<string>)
    requires forall k :: 0 <= k < |ws| ==> IsWord(ws[k])
    ensures Tokenize(JoinWords(ws)) == ws
  {
    if ws == [] {
    } else if |ws| == 1 {
      TokenizeWord(ws[0]);
    } else {
      TokenizeConcat(ws[0], JoinWords(ws[1..]));
      TokenizeWord(ws[0]);
      TokenizeJoin(ws[1..]);
    }
  }

  /** The first word of `s`, as `strtok(s, " ")` returns it, or `None` where
      `strtok` returns NULL (nothing but spaces). */
  function FirstToken(s: string): (r: Option<string>)
    ensures r.None? <==> Tokenize(s) == []
    ensures r.Some? ==> IsWord(r.value) && Tokenize(s)[0] == r.value
  {
    TokenizeWords(s);
    var ws := Tokenize(s);
    if ws == [] then None else Some(ws[0])
  }

  predicate StartsWith(s: string, key: string)
  {
    |key| <= |s| && s[..|key|] == key
  }

  /** `key` occurs in `s` at offset `i`. */
  predicate OccursAt(s: string, key: string, i: int)
  {
    0 <= i <= |s| - |key| && s[i..i + |key|] == key
  }

  /** `strstr(s, key) != NULL`: `key` occurs somewhere in `s`. */
  function Contains(s: string, key: string): (r: bool)
    ensures r <==> exists i :: OccursAt(s, key, i)
    decreases |s|
  {
    if StartsWith(s, key) then
      assert OccursAt(s, key, 0);
      true
    else if s == [] then
      false
    else
      var r := Contains(s[1..], key);
      if r then
        var i :| OccursAt(s[1..], key, i);
        assert OccursAt(s, key, i + 1) by {
          assert s[i + 1..i + 1 + |key|] == s[1..][i..i + |key|];
        }
        true
      else
        assert forall i :: OccursAt(s, key, i) ==> OccursAt(s[1..], key, i - 1) by {
          forall i | OccursAt(s, key, i) ensures OccursAt(s[1..], key, i - 1) {
            assert i != 0;
            forall j | 0 <= j < |key| ensures s[1..][i - 1..i - 1 + |key|][j] == key[j] {
              assert s[i..i + |key|][j] == key[j];
            }
            assert s[1..][i - 1..i - 1 + |key|] == key;
          }
        }
        false
  }

  /** `s + k`, pointer arithmetic on a C string: the text from offset `k` on,
      or the empty string when `k` lies beyond the end. */
  function Drop(s: string, k: nat): string
  {
    if k <= |s| then s[k..] else []
  }
}
