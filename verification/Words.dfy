/** get_word of src/game_processing/shared_funcs.c: an in-place word splitter (C locale). */
module Words {
  import opened Options

  /** isspace. */
  predicate IsSpace(c: char) {
    c == ' ' || 9 <= c as int <= 13
  }

  /** tolower. */
  function ToLower(c: char): char {
    if 'A' <= c <= 'Z' then (c as int + 32) as char else c
  }

  lemma ToLowerKeeps(c: char)
    ensures IsSpace(ToLower(c)) <==> IsSpace(c)
    ensures ToLower(c) == '\0' <==> c == '\0'
    ensures ToLower(ToLower(c)) == ToLower(c)
  {
  }

  const UPPER := "ABCDEFGHIJKLMNOPQRSTUVWXYZ"
  const LOWER := "abcdefghijklmnopqrstuvwxyz"

  /** The six space characters: blank, tab, line feed, vertical tab, form feed and carriage return. */
  lemma SpacesExactly(c: char)
    ensures IsSpace(c) <==> c == ' ' || c == '\t' || c == '\n' || c == '\U{000B}' || c == '\U{000C}' || c == '\r'
  {
  }

  /** Each upper-case letter becomes its lower-case letter; every other character stays. */
  lemma ToLowerExactly(c: char)
    ensures forall k :: 0 <= k < 26 && c == UPPER[k] ==> ToLower(c) == LOWER[k]
    ensures c !in UPPER ==> ToLower(c) == c
  {
    if 'A' <= c <= 'Z' {
      var k := c as int - 65;
      assert UPPER[k] == c by {
        LetterAt(k);
      }
    }
    forall k | 0 <= k < 26 && c == UPPER[k]
      ensures ToLower(c) == LOWER[k]
    {
      LetterAt(k);
    }
  }

  lemma LetterAt(k: int)
    requires 0 <= k < 26
    ensures UPPER[k] as int == 65 + k && LOWER[k] as int == 97 + k
  {
  }

  /** The string from pos on ends at n. */
  ghost predicate EndsAt(s: seq<char>, pos: nat, n: nat) {
    pos <= n < |s| && s[n] == '\0' && forall i :: pos <= i < n ==> s[i] != '\0'
  }

  /** The first position from pos on that is no space, or n. */
  function WordStart(s: seq<char>, pos: nat, n: nat): (k: nat)
    requires pos <= n <= |s|
    ensures pos <= k <= n && (k < n ==> !IsSpace(s[k])) && forall i :: pos <= i < k ==> IsSpace(s[i])
    decreases n - pos
  {
    if pos < n && IsSpace(s[pos]) then WordStart(s, pos + 1, n) else pos
  }

  /** The first position from pos on that is a space, or n. */
  function WordEnd(s: seq<char>, pos: nat, n: nat): (k: nat)
    requires pos <= n <= |s|
    ensures pos <= k <= n && (k < n ==> IsSpace(s[k])) && forall i :: pos <= i < k ==> !IsSpace(s[i])
    decreases n - pos
  {
    if pos < n && !IsSpace(s[pos]) then WordEnd(s, pos + 1, n) else pos
  }

  /** The buffer with the word at [a, b) lower-cased and, unless it ends the string, cut off. */
  function Cut(s: seq<char>, a: nat, b: nat, n: nat): seq<char>
    requires a <= b <= n < |s|
  {
    seq(|s|, i requires 0 <= i < |s| => if a <= i < b then ToLower(s[i]) else if i == b && b < n then '\0' else s[i])
  }

  /** Where the search goes on after a word that ends at b: behind the NUL put there. */
  function After(b: nat, n: nat): nat {
    if b < n then b + 1 else n
  }

  /** get_word: the start of the next word, or NULL when only spaces are left. */
  method GetWord(buf: array<char>, position: nat, ghost n: nat) returns (word: Option<nat>, position': nat)
    requires EndsAt(buf[..], position, n)
    modifies buf
    ensures var s := old(buf[..]);
            var a := WordStart(s, position, n);
            var b := WordEnd(s, a, n);
            && word == (if a < n then Some(a) else None)
            && position' == After(b, n)
            && buf[..] == Cut(s, a, b, n)
  {
    ghost var s := buf[..];
    var pos := position;
    while IsSpace(buf[pos]) && buf[pos] != '\0'
      invariant position <= pos <= n && WordStart(s, pos, n) == WordStart(s, position, n)
      decreases n - pos
    {
      pos := pos + 1;
    }
    var wStart := pos;
    assert pos < n ==> s[pos] != '\0';
    while buf[pos] != '\0'
      invariant wStart <= pos <= n && WordEnd(s, pos, n) == WordEnd(s, wStart, n)
      invariant forall i :: wStart <= i < pos ==> buf[i] == ToLower(s[i])
      invariant forall i :: 0 <= i < buf.Length && !(wStart <= i < pos) ==> buf[i] == s[i]
      decreases n - pos
    {
      if !IsSpace(buf[pos]) {
        buf[pos] := ToLower(buf[pos]);
        pos := pos + 1;
      } else {
        buf[pos] := '\0';
        pos := pos + 1;
        assert buf[..] == Cut(s, wStart, pos - 1, n);
        break;
      }
    }
    assert buf[..] == Cut(s, wStart, WordEnd(s, wStart, n), n);
    position' := pos;
    word := if wStart != pos then Some(wStart) else None;
  }

  // ---- calling it until it returns NULL ---------------------------------------------------

  /** A maximal stretch of non-spaces of s[pos..n]. */
  predicate MaximalRun(s: seq<char>, pos: nat, n: nat, a: nat, b: nat)
    requires pos <= n <= |s|
  {
    && pos <= a < b <= n
    && (forall i :: a <= i < b ==> !IsSpace(s[i]))
    && (a == pos || IsSpace(s[a - 1]))
    && (b == n || IsSpace(s[b]))
  }

  /** The words get_word finds in s[pos..n], as intervals. */
  function AllWords(s: seq<char>, pos: nat, n: nat): seq<(nat, nat)>
    requires pos <= n <= |s|
    decreases n - pos
  {
    var a := WordStart(s, pos, n);
    var b := WordEnd(s, a, n);
    if a == n then [] else [(a, b)] + AllWords(s, After(b, n), n)
  }

  /** Where a maximal run lies relative to the first word. */
  lemma RunAt(s: seq<char>, pos: nat, n: nat, a: nat, b: nat, a0: nat, b0: nat)
    requires pos <= a0 < b0 <= n <= |s| && MaximalRun(s, pos, n, a, b)
    requires forall i :: pos <= i < a0 ==> IsSpace(s[i])
    requires forall i :: a0 <= i < b0 ==> !IsSpace(s[i])
    requires b0 < n ==> IsSpace(s[b0])
    ensures (a, b) == (a0, b0) || a > b0
  {
    assert !IsSpace(s[a]);
    if a > a0 {
      assert IsSpace(s[a - 1]);
    }
  }

  lemma NoRunInSpaces(s: seq<char>, pos: nat, n: nat, a: nat)
    requires pos <= a < n <= |s| && forall i :: pos <= i < n ==> IsSpace(s[i])
    ensures IsSpace(s[a])
  {
  }

  lemma RunsSplit(s: seq<char>, pos: nat, n: nat, a: nat, b: nat)
    requires pos <= n <= |s| && WordStart(s, pos, n) < n
    ensures var a0 := WordStart(s, pos, n); var b0 := WordEnd(s, a0, n);
            MaximalRun(s, pos, n, a, b) <==> (a, b) == (a0, b0) || MaximalRun(s, After(b0, n), n, a, b)
  {
    var a0 := WordStart(s, pos, n);
    var b0 := WordEnd(s, a0, n);
    if MaximalRun(s, pos, n, a, b) {
      RunAt(s, pos, n, a, b, a0, b0);
    }
  }

  /** They are the maximal runs, all of them and in order. */
  lemma {:induction false} AllWordsAreRuns(s: seq<char>, pos: nat, n: nat)
    requires pos <= n <= |s|
    ensures forall a: nat, b: nat :: MaximalRun(s, pos, n, a, b) <==> (a, b) in AllWords(s, pos, n)
    ensures forall i, j :: 0 <= i < j < |AllWords(s, pos, n)| ==> AllWords(s, pos, n)[i].1 < AllWords(s, pos, n)[j].0
    decreases n - pos
  {
    var a0 := WordStart(s, pos, n);
    var b0 := WordEnd(s, a0, n);
    if a0 == n {
      forall a: nat, b: nat
        ensures !MaximalRun(s, pos, n, a, b)
      {
        if MaximalRun(s, pos, n, a, b) {
          NoRunInSpaces(s, pos, n, a);
        }
      }
    } else {
      var rest := AllWords(s, After(b0, n), n);
      AllWordsAreRuns(s, After(b0, n), n);
      assert AllWords(s, pos, n) == [(a0, b0)] + rest;
      forall a: nat, b: nat
        ensures MaximalRun(s, pos, n, a, b) <==> (a, b) in [(a0, b0)] + rest
      {
        RunsSplit(s, pos, n, a, b);
      }
      forall j | 0 <= j < |rest|
        ensures b0 < rest[j].0
      {
        assert (rest[j].0, rest[j].1) in rest;
        assert MaximalRun(s, After(b0, n), n, rest[j].0, rest[j].1);
      }
    }
  }

  /** What the buffer holds once the words of s[pos..n] have been read: each lower-cased and cut off. */
  ghost predicate Read(s: seq<char>, now: seq<char>, pos: nat, n: nat, words: seq<(nat, nat)>)
    requires pos <= n < |s|
  {
    && |now| == |s|
    && (forall k :: 0 <= k < |words| ==> pos <= words[k].0 < words[k].1 <= n)
    && (forall i {:trigger now[i]} :: 0 <= i < |s| ==>
          now[i] == if InWord(words, i) then ToLower(s[i]) else if CutAt(words, i) && i < n then '\0' else s[i])
  }

  predicate InWord(words: seq<(nat, nat)>, i: int) {
    exists k :: 0 <= k < |words| && words[k].0 <= i < words[k].1
  }

  predicate CutAt(words: seq<(nat, nat)>, i: int) {
    exists k :: 0 <= k < |words| && words[k].1 == i
  }

  /** Cutting the first word and reading the rest is reading them all. */
  lemma ReadOn(s: seq<char>, cut: seq<char>, now: seq<char>, pos: nat, n: nat, a: nat, b: nat, rest: seq<(nat, nat)>)
    requires pos <= a < b <= n < |s| && cut == Cut(s, a, b, n)
    requires Read(cut, now, After(b, n), n, rest)
    ensures Read(s, now, pos, n, [(a, b)] + rest)
  {
    var words := [(a, b)] + rest;
    forall i {:trigger now[i]} | 0 <= i < |s|
      ensures now[i] == if InWord(words, i) then ToLower(s[i]) else if CutAt(words, i) && i < n then '\0' else s[i]
    {
      assert InWord(words, i) <==> a <= i < b || InWord(rest, i) by {
        if a <= i < b {
          assert words[0].0 <= i < words[0].1;
        }
        if k :| 0 <= k < |rest| && rest[k].0 <= i < rest[k].1 {
          assert words[k + 1].0 <= i < words[k + 1].1;
        }
      }
      assert CutAt(words, i) <==> i == b || CutAt(rest, i) by {
        if i == b {
          assert words[0].1 == i;
        }
        if k :| 0 <= k < |rest| && rest[k].1 == i {
          assert words[k + 1].1 == i;
        }
      }
    }
  }

  lemma {:induction false} ScanSurvives(s: seq<char>, t: seq<char>, pos: nat, n: nat)
    requires pos <= n < |s| == |t| && forall i :: pos <= i < |s| ==> t[i] == s[i]
    ensures WordStart(t, pos, n) == WordStart(s, pos, n) && WordEnd(t, pos, n) == WordEnd(s, pos, n)
    decreases n - pos
  {
    if pos < n {
      ScanSurvives(s, t, pos + 1, n);
    }
  }

  lemma AllWordsUnfolds(s: seq<char>, pos: nat, n: nat)
    requires pos <= n <= |s|
    ensures var a := WordStart(s, pos, n);
            && pos <= a <= n
            && (a == n ==> AllWords(s, pos, n) == [])
            && (a < n ==>
                  var b := WordEnd(s, a, n);
                  && a < b <= n && b <= After(b, n) <= n
                  && AllWords(s, pos, n) == [(a, b)] + AllWords(s, After(b, n), n))
  {
  }

  /** Buffers that agree from pos on hold the same words there. */
  lemma {:induction false} WordsSurvive(s: seq<char>, t: seq<char>, pos: nat, n: nat)
    requires pos <= n < |s| == |t| && forall i :: pos <= i < |s| ==> t[i] == s[i]
    ensures AllWords(t, pos, n) == AllWords(s, pos, n)
    decreases n - pos
  {
    hide *;
    AllWordsUnfolds(s, pos, n);
    AllWordsUnfolds(t, pos, n);
    ScanSurvives(s, t, pos, n);
    var a := WordStart(s, pos, n);
    ScanSurvives(s, t, a, n);
    if a < n {
      WordsSurvive(s, t, After(WordEnd(s, a, n), n), n);
    }
  }

  /** A caller that asks for words until it gets NULL: it is handed exactly the maximal runs, in order,
      and the buffer ends up with each of them lower-cased and terminated, all else untouched. */
  method ReadWords(buf: array<char>, position: nat, ghost n: nat) returns (starts: seq<nat>)
    requires EndsAt(buf[..], position, n)
    modifies buf
    ensures var words := AllWords(old(buf[..]), position, n);
            && |starts| == |words| && (forall k :: 0 <= k < |words| ==> starts[k] == words[k].0)
            && Read(old(buf[..]), buf[..], position, n, words)
    decreases n - position
  {
    hide *;
    ghost var s := buf[..];
    Bounds(s, position, n);
    var word, next := GetWord(buf, position, n);
    if word == None {
      return [];
    }
    ghost var cut := buf[..];
    AfterWord(s, cut, position, n);
    var rest := ReadWords(buf, next, n);
    starts := [word.value] + rest;
    ReadOn(s, cut, buf[..], position, n, word.value, WordEnd(s, word.value, n), AllWords(s, next, n));
  }

  lemma Bounds(s: seq<char>, pos: nat, n: nat)
    requires EndsAt(s, pos, n)
    ensures pos <= n < |s|
    ensures WordStart(s, pos, n) == n ==> AllWords(s, pos, n) == [] && Cut(s, n, n, n) == s && Read(s, s, pos, n, [])
  {
  }

  /** After the first word: what GetWord left is a terminated string again, with the remaining words. */
  lemma AfterWord(s: seq<char>, cut: seq<char>, pos: nat, n: nat)
    requires EndsAt(s, pos, n) && WordStart(s, pos, n) < n
    requires cut == Cut(s, WordStart(s, pos, n), WordEnd(s, WordStart(s, pos, n), n), n)
    ensures var a := WordStart(s, pos, n);
            var b := WordEnd(s, a, n);
            && pos <= a < b <= n && After(b, n) == (if b < n then b + 1 else n)
            && EndsAt(cut, After(b, n), n)
            && AllWords(cut, After(b, n), n) == AllWords(s, After(b, n), n)
            && AllWords(s, pos, n) == [(a, b)] + AllWords(s, After(b, n), n)
            && After(b, n) > pos
  {
    hide WordStart, WordEnd, AllWords;
    AllWordsUnfolds(s, pos, n);
    var a := WordStart(s, pos, n);
    var b := WordEnd(s, a, n);
    WordsSurvive(s, cut, After(b, n), n);
  }

  lemma NotInWord(words: seq<(nat, nat)>, k: nat)
    requires k < |words|
    requires forall i, j :: 0 <= i < j < |words| ==> words[i].1 < words[j].0
    requires forall i :: 0 <= i < |words| ==> words[i].0 < words[i].1
    ensures !InWord(words, words[k].1)
  {
    forall m | 0 <= m < |words|
      ensures !(words[m].0 <= words[k].1 < words[m].1)
    {
      if m < k {
        assert words[m].1 < words[k].0;
      } else if k < m {
        assert words[k].1 < words[m].0;
      }
    }
  }

  /** As a C string, each word handed out is its run in lower case. */
  lemma WordIsLowered(s: seq<char>, now: seq<char>, pos: nat, n: nat, k: nat)
    requires EndsAt(s, pos, n) && Read(s, now, pos, n, AllWords(s, pos, n)) && k < |AllWords(s, pos, n)|
    ensures var (a, b) := AllWords(s, pos, n)[k];
            && 0 <= a < b < |now| && now[b] == '\0'
            && forall i :: a <= i < b ==> now[i] == ToLower(s[i]) && now[i] != '\0'
  {
    var words := AllWords(s, pos, n);
    var (a, b) := words[k];
    AllWordsAreRuns(s, pos, n);
    assert (a, b) in words && MaximalRun(s, pos, n, a, b);
    forall i | a <= i < b
      ensures now[i] == ToLower(s[i]) && now[i] != '\0'
    {
      assert words[k].0 <= i < words[k].1;
      ToLowerKeeps(s[i]);
    }
    assert words[k].1 == b && CutAt(words, b);
    NotInWord(words, k);
  }
}
