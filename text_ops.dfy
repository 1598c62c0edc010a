/**
 * The text-operations library of the first example: a state that counts the
 * bytes it has processed, two string transformations (reverse the lines,
 * remove listed words together with the separator after them), and an
 * interpreter for commands, including batches of commands.
 *
 * The pure functions below say what each operation computes; the methods of
 * `TextOperationState` are the library's loops, proved against them.
 */
module TextOps {

  newtype u64 = x: int | 0 <= x < 0x1_0000_0000_0000_0000

  const U64_MODULUS: int := 0x1_0000_0000_0000_0000

  /** `counter += n as u64`, wrapping around at 2^64: the exact sum when it
      fits, and always congruent to it modulo 2^64. */
  function AddBytes(counter: u64, n: nat): (r: u64)
    ensures counter as int + n < U64_MODULUS ==> r as int == counter as int + n
    ensures (counter as int + n - r as int) % U64_MODULUS == 0
  {
    ((counter as int + n) % U64_MODULUS) as u64
  }

  /** Adding in two steps is adding the sum, wrap-around included. Dafny's
      arithmetic proves it outright. */
  lemma AddBytesAssociative(counter: u64, x: nat, y: nat)
    ensures AddBytes(AddBytes(counter, x), y) == AddBytes(counter, x + y)
  {
  }

  // ---------------------------------------------------------------------------
  // Byte length of a string

  /** The number of bytes UTF-8 uses for `c`. */
  function Utf8Width(c: char): nat
  {
    if c as int < 0x80 then 1
    else if c as int < 0x800 then 2
    else if c as int < 0x1_0000 then 3
    else 4
  }

  /** `str::len`: the length of `s` in UTF-8 bytes, one to four per
      character. */
  function ByteLen(s: string): (n: nat)
    ensures |s| <= n <= 4 * |s|
  {
    if s == [] then 0 else Utf8Width(s[0]) + ByteLen(s[1..])
  }

  lemma {:induction false} ByteLenAppend(a: string, b: string)
    ensures ByteLen(a + b) == ByteLen(a) + ByteLen(b)
  {
    if a != [] {
      assert (a + b)[0] == a[0];
      assert (a + b)[1..] == a[1..] + b;
      ByteLenAppend(a[1..], b);
    } else {
      assert a + b == b;
    }
  }

  // ---------------------------------------------------------------------------
  // Lines

  /** The index of the first '\n' in `s`, or `|s|` if there is none. */
  function FirstNewline(s: string): (i: nat)
    ensures i <= |s|
    ensures forall j :: 0 <= j < i ==> s[j] != '\n'
    ensures i < |s| ==> s[i] == '\n'
  {
    if s == [] || s[0] == '\n' then 0 else 1 + FirstNewline(s[1..])
  }

  /** `str::lines`: the text split at each '\n'; a final '\n' does not
      start another, empty line. */
  function Lines(text: string): (lines: seq<string>)
    ensures forall i :: 0 <= i < |lines| ==> '\n' !in lines[i]
    decreases |text|
  {
    if text == [] then []
    else
      var i := FirstNewline(text);
      if i == |text| then [text] else [text[..i]] + Lines(text[i + 1..])
  }

  /** Each line followed by one '\n', as `reverse_lines` writes them. */
  function JoinLines(lines: seq<string>): string
  {
    if lines == [] then [] else lines[0] + "\n" + JoinLines(lines[1..])
  }

  /** `text` with a '\n' after its last line, if that one had none. */
  function WithFinalNewline(text: string): string
  {
    if text == [] || text[|text| - 1] == '\n' then text else text + "\n"
  }

  /** The sum of the lengths of `lines`. */
  function TotalLength(lines: seq<string>): nat
  {
    if lines == [] then 0 else |lines[0]| + TotalLength(lines[1..])
  }

  /** `s` in reverse order. */
  function Reversed<T>(s: seq<T>): (r: seq<T>)
    ensures |r| == |s|
    ensures forall k :: 0 <= k < |s| ==> r[k] == s[|s| - 1 - k]
  {
    if s == [] then [] else Reversed(s[1..]) + [s[0]]
  }

  lemma ReversedTwice<T>(s: seq<T>)
    ensures Reversed(Reversed(s)) == s
  {
  }

  lemma {:induction false} JoinLinesAppend(a: seq<string>, b: seq<string>)
    ensures JoinLines(a + b) == JoinLines(a) + JoinLines(b)
  {
    if a != [] {
      assert (a + b)[0] == a[0];
      assert (a + b)[1..] == a[1..] + b;
      JoinLinesAppend(a[1..], b);
      assert JoinLines(a + b) == a[0] + "\n" + (JoinLines(a[1..]) + JoinLines(b));
    } else {
      assert a + b == b;
    }
  }

  lemma {:induction false} TotalLengthAppend(a: seq<string>, b: seq<string>)
    ensures TotalLength(a + b) == TotalLength(a) + TotalLength(b)
  {
    if a != [] {
      assert (a + b)[0] == a[0];
      assert (a + b)[1..] == a[1..] + b;
      TotalLengthAppend(a[1..], b);
    } else {
      assert a + b == b;
    }
  }

  lemma {:induction false} TotalLengthReversed(lines: seq<string>)
    ensures TotalLength(Reversed(lines)) == TotalLength(lines)
  {
    if lines != [] {
      TotalLengthReversed(lines[1..]);
      TotalLengthAppend(Reversed(lines[1..]), [lines[0]]);
    }
  }

  /** Joined lines are one character longer per line than the lines. */
  lemma {:induction false} JoinLinesLength(lines: seq<string>)
    ensures |JoinLines(lines)| == TotalLength(lines) + |lines|
  {
    if lines != [] {
      JoinLinesLength(lines[1..]);
    }
  }

  /** The first '\n' after a line without one is the one that ends it. */
  lemma {:induction false} FirstNewlineAfterLine(head: string, rest: string)
    requires '\n' !in head
    ensures FirstNewline(head + "\n" + rest) == |head|
  {
    if head != [] {
      var t := head + "\n" + rest;
      assert t[0] == head[0];
      assert t[1..] == head[1..] + "\n" + rest;
      FirstNewlineAfterLine(head[1..], rest);
    }
  }

  /** Splitting joined lines gives the lines back, when no line holds a
      '\n' of its own. */
  lemma {:induction false} LinesOfJoinLines(lines: seq<string>)
    requires forall i :: 0 <= i < |lines| ==> '\n' !in lines[i]
    ensures Lines(JoinLines(lines)) == lines
  {
    if lines != [] {
      var head := lines[0];
      var rest := JoinLines(lines[1..]);
      var t := head + "\n" + rest;
      assert JoinLines(lines) == t;
      FirstNewlineAfterLine(head, rest);
      assert t[..|head|] == head;
      assert t[|head| + 1..] == rest;
      assert Lines(t) == [head] + Lines(rest);
      LinesOfJoinLines(lines[1..]);
    }
  }

  /** Joining the lines of a text gives the text back, with a final '\n'. */
  lemma {:induction false} JoinLinesOfLines(text: string)
    ensures JoinLines(Lines(text)) == WithFinalNewline(text)
    decreases |text|
  {
    if text != [] {
      var i := FirstNewline(text);
      if i == |text| {
        assert text[|text| - 1] != '\n';
        assert Lines(text) == [text];
        assert JoinLines([text]) == text + "\n" + JoinLines([]);
      } else {
        var rest := text[i + 1..];
        assert text == text[..i] + "\n" + rest;
        assert Lines(text) == [text[..i]] + Lines(rest);
        assert JoinLines(Lines(text)) == text[..i] + "\n" + JoinLines(Lines(rest));
        JoinLinesOfLines(rest);
        if rest != [] {
          assert rest[|rest| - 1] == text[|text| - 1];
        }
      }
    }
  }

  /** What `reverse_lines` returns: the lines of `text`, last first, each
      followed by '\n'. */
  function ReverseLinesText(text: string): string
  {
    JoinLines(Reversed(Lines(text)))
  }

  /** The lines of the output are the lines of the input in reverse order. */
  lemma ReverseLinesOutputLines(text: string)
    ensures Lines(ReverseLinesText(text)) == Reversed(Lines(text))
  {
    var lines := Lines(text);
    assert forall i :: 0 <= i < |Reversed(lines)| ==> '\n' !in Reversed(lines)[i] by {
      forall i | 0 <= i < |Reversed(lines)|
        ensures '\n' !in Reversed(lines)[i]
      {
        assert Reversed(lines)[i] == lines[|lines| - 1 - i];
      }
    }
    LinesOfJoinLines(Reversed(lines));
  }

  /** Reversing twice restores the text, up to a final '\n'. */
  lemma ReverseLinesTwice(text: string)
    ensures ReverseLinesText(ReverseLinesText(text)) == WithFinalNewline(text)
  {
    ReverseLinesOutputLines(text);
    ReversedTwice(Lines(text));
    JoinLinesOfLines(text);
  }

  /** The output is as long as the lines together plus one '\n' per line. */
  lemma ReverseLinesLength(text: string)
    ensures |ReverseLinesText(text)| == TotalLength(Lines(text)) + |Lines(text)|
  {
    JoinLinesLength(Reversed(Lines(text)));
    TotalLengthReversed(Lines(text));
  }

  // ---------------------------------------------------------------------------
  // Runs of alphabetic and non-alphabetic characters

  /** A maximal run of characters on which a predicate agrees
      (`KeyStr` of `split_while`): `isWord` is the predicate's value. */
  datatype Segment = Segment(isWord: bool, text: string)

  /** The length of the maximal prefix of `s` on which `p` agrees with
      `p(s[0])`. */
  function RunLength(s: string, p: char -> bool): (k: nat)
    requires s != []
    ensures 1 <= k <= |s|
    ensures forall j :: 0 <= j < k ==> p(s[j]) == p(s[0])
    ensures k < |s| ==> p(s[k]) != p(s[0])
  {
    if |s| == 1 || p(s[1]) != p(s[0]) then 1 else 1 + RunLength(s[1..], p)
  }

  /** `split_while(p)`: `s` cut into maximal runs, which put back together
      are `s`. */
  function Runs(s: string, p: char -> bool): (runs: seq<Segment>)
    ensures Concat(runs) == s
    decreases |s|
  {
    if s == [] then []
    else
      var k := RunLength(s, p);
      assert s[..k] + s[k..] == s;
      [Segment(p(s[0]), s[..k])] + Runs(s[k..], p)
  }

  /** The runs laid end to end. */
  function Concat(runs: seq<Segment>): string
  {
    if runs == [] then [] else runs[0].text + Concat(runs[1..])
  }

  /** A run is non-empty and `p` gives `isWord` on each of its characters. */
  ghost predicate RunOk(r: Segment, p: char -> bool)
  {
    r.text != [] && forall j :: 0 <= j < |r.text| ==> p(r.text[j]) == r.isWord
  }

  /** Neighbouring runs are of different kinds. */
  ghost predicate Alternating(runs: seq<Segment>)
  {
    forall i :: 0 < i < |runs| ==> runs[i - 1].isWord != runs[i].isWord
  }

  /** The shape `split_while` promises: a cut into maximal runs. */
  ghost predicate WellFormedRuns(runs: seq<Segment>, p: char -> bool)
  {
    (forall r :: r in runs ==> RunOk(r, p)) && Alternating(runs)
  }

  lemma {:induction false} ConcatAppend(a: seq<Segment>, b: seq<Segment>)
    ensures Concat(a + b) == Concat(a) + Concat(b)
  {
    if a != [] {
      assert (a + b)[0] == a[0];
      assert (a + b)[1..] == a[1..] + b;
      ConcatAppend(a[1..], b);
      assert Concat(a + b) == a[0].text + (Concat(a[1..]) + Concat(b));
    } else {
      assert a + b == b;
    }
  }

  lemma ConcatSnoc(a: seq<Segment>, r: Segment)
    ensures Concat(a + [r]) == Concat(a) + r.text
  {
    ConcatAppend(a, [r]);
    assert [r][1..] == [];
  }

  /** The runs are maximal runs. */
  lemma {:induction false} RunsWellFormed(s: string, p: char -> bool)
    ensures WellFormedRuns(Runs(s, p), p)
    ensures s != [] ==> Runs(s, p) != [] && Runs(s, p)[0].isWord == p(s[0])
    decreases |s|
  {
    if s != [] {
      var k := RunLength(s, p);
      var first := Segment(p(s[0]), s[..k]);
      var rest := Runs(s[k..], p);
      RunsWellFormed(s[k..], p);
      var runs := [first] + rest;
      assert RunOk(first, p);
      forall r | r in runs ensures RunOk(r, p) {
        if r != first {
          assert r in rest;
        }
      }
      forall i | 0 < i < |runs| ensures runs[i - 1].isWord != runs[i].isWord {
        if i == 1 {
          assert rest[0].isWord == p(s[k]);
        } else {
          assert runs[i - 1] == rest[i - 2] && runs[i] == rest[i - 1];
        }
      }
    }
  }

  /** The first run of a proper cut is the first run `split_while` finds. */
  lemma FirstRunLength(runs: seq<Segment>, p: char -> bool)
    requires WellFormedRuns(runs, p) && runs != []
    ensures Concat(runs) != []
    ensures RunLength(Concat(runs), p) == |runs[0].text|
    ensures p(Concat(runs)[0]) == runs[0].isWord
    ensures Concat(runs) == runs[0].text + Concat(runs[1..])
  {
    var first := runs[0];
    var tail := runs[1..];
    var s := Concat(runs);
    var n := |first.text|;
    assert RunOk(first, p);
    assert s == first.text + Concat(tail);
    assert forall j :: 0 <= j < n ==> s[j] == first.text[j];
    if n < |s| {
      assert tail != [] && tail[0] == runs[1];
      assert RunOk(tail[0], p);
      assert runs[0].isWord != runs[1].isWord;
      assert Concat(tail) == tail[0].text + Concat(tail[1..]);
      assert s[n] == tail[0].text[0];
    }
  }

  /** Every tail of a proper cut is a proper cut. */
  lemma WellFormedTail(runs: seq<Segment>, p: char -> bool)
    requires WellFormedRuns(runs, p) && runs != []
    ensures WellFormedRuns(runs[1..], p)
  {
    var tail := runs[1..];
    forall r | r in tail ensures RunOk(r, p) {
      assert r in runs;
    }
    forall i | 0 < i < |tail| ensures tail[i - 1].isWord != tail[i].isWord {
      assert tail[i - 1] == runs[i] && tail[i] == runs[i + 1];
    }
  }

  /** A cut into maximal runs is the one `split_while` makes. */
  lemma {:induction false} RunsUnique(runs: seq<Segment>, p: char -> bool)
    requires WellFormedRuns(runs, p)
    ensures Runs(Concat(runs), p) == runs
  {
    if runs != [] {
      var s := Concat(runs);
      FirstRunLength(runs, p);
      var k := |runs[0].text|;
      assert s[..k] == runs[0].text;
      assert s[k..] == Concat(runs[1..]);
      WellFormedTail(runs, p);
      RunsUnique(runs[1..], p);
      assert Runs(s, p) == [Segment(p(s[0]), s[..k])] + Runs(s[k..], p);
    }
  }

  // ---------------------------------------------------------------------------
  // remove_words

  /** The set the listed words are collected into. */
  function WordSet(words: seq<string>): (w: set<string>)
    ensures forall x :: x in w <==> x in words
  {
    set x | x in words
  }

  /** Whether `remove_words` drops run `i`: a word run exactly when it is a
      listed word, any other run exactly when the run before it was dropped. */
  function Deleted(runs: seq<Segment>, words: set<string>, i: nat): bool
    requires i < |runs|
  {
    if runs[i].isWord then runs[i].text in words else i > 0 && Deleted(runs, words, i - 1)
  }

  /** A run is dropped exactly when it is a listed word or comes after one
      with no word run in between. */
  lemma {:induction false} DeletedIffAfterListedWord(runs: seq<Segment>, words: set<string>, i: nat)
    requires i < |runs|
    ensures Deleted(runs, words, i) <==>
      exists j :: 0 <= j <= i && runs[j].isWord && runs[j].text in words &&
        forall k :: j < k <= i ==> !runs[k].isWord
  {
    if !runs[i].isWord && i > 0 {
      DeletedIffAfterListedWord(runs, words, i - 1);
    }
  }

  /** The first `n` runs, without the dropped ones, in their original order. */
  function KeptRuns(runs: seq<Segment>, words: set<string>, n: nat): seq<Segment>
    requires n <= |runs|
  {
    if n == 0 then []
    else KeptRuns(runs, words, n - 1) + (if Deleted(runs, words, n - 1) then [] else [runs[n - 1]])
  }

  /** What `remove_words` returns. */
  function RemoveWordsText(s: string, words: seq<string>, isAlphabetic: char -> bool): string
  {
    var runs := Runs(s, isAlphabetic);
    Concat(KeptRuns(runs, WordSet(words), |runs|))
  }

  /** On a proper cut, a separator is dropped exactly when the word before
      it is a listed one: the separator after a removed word goes with it. */
  lemma DeletedIffListed(s: string, words: set<string>, p: char -> bool, i: nat)
    requires i < |Runs(s, p)|
    ensures var runs := Runs(s, p);
      Deleted(runs, words, i) <==>
        if runs[i].isWord then runs[i].text in words
        else i > 0 && runs[i - 1].isWord && runs[i - 1].text in words
  {
    RunsWellFormed(s, p);
  }

  /** When no word run is listed, nothing is dropped. */
  lemma {:induction false} NoneDeleted(runs: seq<Segment>, words: set<string>, i: nat)
    requires i < |runs|
    requires forall r :: r in runs && r.isWord ==> r.text !in words
    ensures !Deleted(runs, words, i)
  {
    assert runs[i] in runs;
    if !runs[i].isWord && i > 0 {
      NoneDeleted(runs, words, i - 1);
    }
  }

  lemma {:induction false} AllKept(runs: seq<Segment>, words: set<string>, n: nat)
    requires n <= |runs|
    requires forall r :: r in runs && r.isWord ==> r.text !in words
    ensures KeptRuns(runs, words, n) == runs[..n]
  {
    if n > 0 {
      AllKept(runs, words, n - 1);
      NoneDeleted(runs, words, n - 1);
      assert runs[..n] == runs[..n - 1] + [runs[n - 1]];
    }
  }

  /** With no words to remove, the string comes back unchanged. */
  lemma RemoveNoWords(s: string, p: char -> bool)
    ensures RemoveWordsText(s, [], p) == s
  {
    var runs := Runs(s, p);
    AllKept(runs, WordSet([]), |runs|);
    assert runs[..|runs|] == runs;
  }

  /** Dropping runs never makes the text longer, in characters or in bytes. */
  lemma {:induction false} KeptLengthBound(runs: seq<Segment>, words: set<string>, n: nat)
    requires n <= |runs|
    ensures |Concat(KeptRuns(runs, words, n))| <= |Concat(runs[..n])|
    ensures ByteLen(Concat(KeptRuns(runs, words, n))) <= ByteLen(Concat(runs[..n]))
  {
    if n > 0 {
      KeptLengthBound(runs, words, n - 1);
      var before := KeptRuns(runs, words, n - 1);
      var r := runs[n - 1];
      assert runs[..n] == runs[..n - 1] + [r];
      ConcatSnoc(runs[..n - 1], r);
      ByteLenAppend(Concat(runs[..n - 1]), r.text);
      if !Deleted(runs, words, n - 1) {
        ConcatSnoc(before, r);
        ByteLenAppend(Concat(before), r.text);
      } else {
        assert before + [] == before;
      }
    }
  }

  /** `remove_words` never returns more than it was given. */
  lemma RemoveWordsShrinks(s: string, words: seq<string>, p: char -> bool)
    ensures |RemoveWordsText(s, words, p)| <= |s|
    ensures ByteLen(RemoveWordsText(s, words, p)) <= ByteLen(s)
  {
    var runs := Runs(s, p);
    KeptLengthBound(runs, WordSet(words), |runs|);
    assert runs[..|runs|] == runs;
  }

  /** The kept runs of a proper cut are runs of the cut, no kept word is
      listed, and kept runs still alternate: after a dropped run the last
      kept one, if any, is a separator. */
  lemma {:induction false} KeptRunsShape(runs: seq<Segment>, words: set<string>, p: char -> bool, n: nat)
    requires WellFormedRuns(runs, p) && n <= |runs|
    ensures var kept := KeptRuns(runs, words, n);
      && (forall r :: r in kept ==> r in runs && (r.isWord ==> r.text !in words))
      && Alternating(kept)
      && (n > 0 && Deleted(runs, words, n - 1) && kept != [] ==> !kept[|kept| - 1].isWord)
  {
    if n > 0 {
      var i := n - 1;
      KeptRunsShape(runs, words, p, i);
      var before := KeptRuns(runs, words, i);
      if i > 0 {
        assert runs[i - 1].isWord != runs[i].isWord;
        assert !Deleted(runs, words, i - 1) ==> before != [] && before[|before| - 1] == runs[i - 1];
      }
      if !Deleted(runs, words, i) {
        var kept := before + [runs[i]];
        assert before != [] ==> before[|before| - 1].isWord != runs[i].isWord;
        forall j | 0 < j < |kept| ensures kept[j - 1].isWord != kept[j].isWord {
          if j < |before| {
            assert kept[j - 1] == before[j - 1] && kept[j] == before[j];
          }
        }
      }
    }
  }

  /** The indices, in increasing order, of the first `n` runs that are kept. */
  function KeptIndices(runs: seq<Segment>, words: set<string>, n: nat): seq<nat>
    requires n <= |runs|
  {
    if n == 0 then []
    else KeptIndices(runs, words, n - 1) + (if Deleted(runs, words, n - 1) then [] else [n - 1])
  }

  /** The kept runs are exactly the runs that are not dropped, in their
      original order: kept run `k` is run `idx[k]` of the input, the indices
      increase strictly, and every run that is not dropped is among them. */
  lemma {:induction false} KeptRunsInOrder(runs: seq<Segment>, words: set<string>, n: nat)
    requires n <= |runs|
    ensures var idx := KeptIndices(runs, words, n);
      var kept := KeptRuns(runs, words, n);
      && |idx| == |kept|
      && (forall k :: 0 <= k < |idx| ==> idx[k] < n && !Deleted(runs, words, idx[k]) && kept[k] == runs[idx[k]])
      && (forall k, l :: 0 <= k < l < |idx| ==> idx[k] < idx[l])
      && (forall i :: 0 <= i < n && !Deleted(runs, words, i) ==> i in idx)
  {
    if n > 0 {
      KeptRunsInOrder(runs, words, n - 1);
    }
  }

  /** The output's own cut into runs is the list of kept runs. */
  lemma RunsOfRemoveWords(s: string, words: seq<string>, p: char -> bool)
    ensures var runs := Runs(s, p);
      Runs(RemoveWordsText(s, words, p), p) == KeptRuns(runs, WordSet(words), |runs|)
  {
    var runs := Runs(s, p);
    var kept := KeptRuns(runs, WordSet(words), |runs|);
    RunsWellFormed(s, p);
    KeptRunsShape(runs, WordSet(words), p, |runs|);
    assert WellFormedRuns(kept, p);
    RunsUnique(kept, p);
  }

  /** No listed word is left as a word of the output. */
  lemma NoListedWordRemains(s: string, words: seq<string>, p: char -> bool)
    ensures forall r :: r in Runs(RemoveWordsText(s, words, p), p) && r.isWord ==> r.text !in words
  {
    var runs := Runs(s, p);
    RunsOfRemoveWords(s, words, p);
    RunsWellFormed(s, p);
    KeptRunsShape(runs, WordSet(words), p, |runs|);
  }

  /** Removing the same words a second time changes nothing. */
  lemma RemoveWordsIdempotent(s: string, words: seq<string>, p: char -> bool)
    ensures RemoveWordsText(RemoveWordsText(s, words, p), words, p) == RemoveWordsText(s, words, p)
  {
    var out := RemoveWordsText(s, words, p);
    var runs := Runs(s, p);
    var kept := KeptRuns(runs, WordSet(words), |runs|);
    RunsOfRemoveWords(s, words, p);
    RunsWellFormed(s, p);
    KeptRunsShape(runs, WordSet(words), p, |runs|);
    AllKept(kept, WordSet(words), |kept|);
    assert kept[..|kept|] == kept;
  }

  // ---------------------------------------------------------------------------
  // Commands

  /** The commands `run_command` accepts (`Command`). */
  datatype Command =
    | ReverseLines(text: string)
    | RemoveWords(text: string, words: seq<string>)
    | GetProcessedBytes
    | Batch(list: seq<Command>)

  /** What `run_command` returns for each command (`ReturnValue`). */
  datatype ReturnValue =
    | ReverseLines(text: string)
    | RemoveWords(text: string)
    | GetProcessedBytes(bytes: u64)
    | Batch(list: seq<ReturnValue>)

  /** The return value has the variant of its command, and a batch returns
      one matching value per command. */
  predicate Matches(c: Command, v: ReturnValue)
    decreases c
  {
    match c
    case ReverseLines(_) => v.ReverseLines?
    case RemoveWords(_, _) => v.RemoveWords?
    case GetProcessedBytes => v.GetProcessedBytes?
    case Batch(list) =>
      v.Batch? && |v.list| == |list| && forall i :: 0 <= i < |list| ==> Matches(list[i], v.list[i])
  }

  /** The counter after `c` and the value it returns, from counter `bytes`.
      The value always has the variant of its command. */
  function Run(bytes: u64, c: Command, isAlphabetic: char -> bool): (r: (u64, ReturnValue))
    ensures Matches(c, r.1)
    decreases c
  {
    match c
    case ReverseLines(text) =>
      (AddBytes(bytes, ByteLen(text)), ReturnValue.ReverseLines(ReverseLinesText(text)))
    case RemoveWords(text, words) =>
      (AddBytes(bytes, ByteLen(text)), ReturnValue.RemoveWords(RemoveWordsText(text, words, isAlphabetic)))
    case GetProcessedBytes =>
      (bytes, ReturnValue.GetProcessedBytes(bytes))
    case Batch(list) =>
      var (after, results) := RunAll(bytes, list, isAlphabetic);
      (after, ReturnValue.Batch(results))
  }

  /** The commands run left to right, each on the counter the previous one
      left: one result per command, each of its command's variant. */
  function RunAll(bytes: u64, cs: seq<Command>, isAlphabetic: char -> bool): (r: (u64, seq<ReturnValue>))
    ensures |r.1| == |cs|
    ensures forall i :: 0 <= i < |cs| ==> Matches(cs[i], r.1[i])
    decreases cs
  {
    if cs == [] then (bytes, [])
    else
      var (before, results) := RunAll(bytes, cs[..|cs| - 1], isAlphabetic);
      var (after, last) := Run(before, cs[|cs| - 1], isAlphabetic);
      (after, results + [last])
  }

  /** The bytes a command counts: the length of each string it processes. */
  function CommandBytes(c: Command): nat
    decreases c
  {
    match c
    case ReverseLines(text) => ByteLen(text)
    case RemoveWords(text, _) => ByteLen(text)
    case GetProcessedBytes => 0
    case Batch(list) => ListBytes(list)
  }

  function ListBytes(cs: seq<Command>): nat
    decreases cs
  {
    if cs == [] then 0 else ListBytes(cs[..|cs| - 1]) + CommandBytes(cs[|cs| - 1])
  }

  /** A command adds to the counter the bytes of every string it processes,
      batches included. */
  lemma {:induction false} RunCounts(bytes: u64, c: Command, isAlphabetic: char -> bool)
    ensures Run(bytes, c, isAlphabetic).0 == AddBytes(bytes, CommandBytes(c))
    decreases c
  {
    if c.Batch? {
      RunAllCounts(bytes, c.list, isAlphabetic);
    }
  }

  lemma {:induction false} RunAllCounts(bytes: u64, cs: seq<Command>, isAlphabetic: char -> bool)
    ensures RunAll(bytes, cs, isAlphabetic).0 == AddBytes(bytes, ListBytes(cs))
    decreases cs
  {
    if cs != [] {
      var init := cs[..|cs| - 1];
      RunAllCounts(bytes, init, isAlphabetic);
      var before := RunAll(bytes, init, isAlphabetic).0;
      RunCounts(before, cs[|cs| - 1], isAlphabetic);
      AddBytesAssociative(bytes, ListBytes(init), CommandBytes(cs[|cs| - 1]));
    }
  }

  /** A batch of `a + b` is the batch `a`, then the batch `b` on the counter
      `a` left. */
  lemma {:induction false} RunAllAppend(bytes: u64, a: seq<Command>, b: seq<Command>, isAlphabetic: char -> bool)
    ensures var (mid, ra) := RunAll(bytes, a, isAlphabetic);
      var (after, rb) := RunAll(mid, b, isAlphabetic);
      RunAll(bytes, a + b, isAlphabetic) == (after, ra + rb)
    decreases b
  {
    var (mid, ra) := RunAll(bytes, a, isAlphabetic);
    if b == [] {
      assert a + b == a;
      assert ra + [] == ra;
    } else {
      var init, last := b[..|b| - 1], b[|b| - 1];
      assert (a + b)[..|a + b| - 1] == a + init;
      assert (a + b)[|a + b| - 1] == last;
      RunAllAppend(bytes, a, init, isAlphabetic);
      var (before, rinit) := RunAll(mid, init, isAlphabetic);
      var (after, r) := Run(before, last, isAlphabetic);
      assert RunAll(bytes, a + init, isAlphabetic) == (before, ra + rinit);
      assert RunAll(mid, b, isAlphabetic) == (after, rinit + [r]);
      assert RunAll(bytes, a + b, isAlphabetic) == (after, (ra + rinit) + [r]);
      assert (ra + rinit) + [r] == ra + (rinit + [r]);
    }
  }

  // ---------------------------------------------------------------------------
  // The library's state

  /** `TextOperationState`: the state behind a `TOStateBox`. */
  class TextOperationState {
    var processedBytes: u64

    constructor (processedBytes: u64)
      ensures this.processedBytes == processedBytes
    {
      this.processedBytes := processedBytes;
    }

    /** `get_processed_bytes`: the counter; the state is left as it is. */
    method GetProcessedBytes() returns (n: u64)
      ensures n == processedBytes
    {
      n := processedBytes;
    }

    /** `reverse_lines`: counts the text's bytes, then writes its lines in
        reverse order, each followed by '\n'. */
    method ReverseLines(text: string) returns (out: string)
      modifies this
      ensures processedBytes == AddBytes(old(processedBytes), ByteLen(text))
      ensures out == ReverseLinesText(text)
    {
      processedBytes := AddBytes(processedBytes, ByteLen(text));
      var lines := Lines(text);
      lines := Reversed(lines);
      var buffer := "";
      for i := 0 to |lines|
        invariant processedBytes == AddBytes(old(processedBytes), ByteLen(text))
        invariant buffer == JoinLines(lines[..i])
      {
        JoinLinesAppend(lines[..i], [lines[i]]);
        assert lines[..i + 1] == lines[..i] + [lines[i]];
        buffer := buffer + lines[i] + "\n";
      }
      assert lines[..|lines|] == lines;
      out := buffer;
    }

    /** `remove_words`: counts the string's bytes, then copies its runs,
        leaving out each listed word and the run after a left-out one. */
    method RemoveWords(text: string, words: seq<string>, isAlphabetic: char -> bool) returns (out: string)
      modifies this
      ensures processedBytes == AddBytes(old(processedBytes), ByteLen(text))
      ensures out == RemoveWordsText(text, words, isAlphabetic)
    {
      processedBytes := AddBytes(processedBytes, ByteLen(text));
      var wordSet := WordSet(words);
      var buffer := "";
      var prevWasDeleted := false;
      var runs := Runs(text, isAlphabetic);
      for i := 0 to |runs|
        invariant processedBytes == AddBytes(old(processedBytes), ByteLen(text))
        invariant buffer == Concat(KeptRuns(runs, wordSet, i))
        invariant prevWasDeleted == (i > 0 && Deleted(runs, wordSet, i - 1))
      {
        var run := runs[i];
        var isDeleted := (!run.isWord && prevWasDeleted) || (run.isWord && run.text in wordSet);
        assert isDeleted == Deleted(runs, wordSet, i);
        ConcatSnoc(KeptRuns(runs, wordSet, i), run);
        assert KeptRuns(runs, wordSet, i + 1) == KeptRuns(runs, wordSet, i) + (if isDeleted then [] else [run]);
        assert KeptRuns(runs, wordSet, i) + [] == KeptRuns(runs, wordSet, i);
        if !isDeleted {
          buffer := buffer + run.text;
        }
        prevWasDeleted := isDeleted;
      }
      out := buffer;
    }

    /** `run_command_inner`: runs `c`, a batch command by command from left
        to right on this same state. */
    method RunCommandInner(c: Command, isAlphabetic: char -> bool) returns (r: ReturnValue)
      modifies this
      ensures (processedBytes, r) == Run(old(processedBytes), c, isAlphabetic)
      decreases c
    {
      match c
      case ReverseLines(text) =>
        var s := ReverseLines(text);
        r := ReturnValue.ReverseLines(s);
      case RemoveWords(text, words) =>
        var s := RemoveWords(text, words, isAlphabetic);
        r := ReturnValue.RemoveWords(s);
      case GetProcessedBytes =>
        var n := GetProcessedBytes();
        r := ReturnValue.GetProcessedBytes(n);
      case Batch(list) =>
        ghost var start := processedBytes;
        var results := [];
        for i := 0 to |list|
          invariant (processedBytes, results) == RunAll(start, list[..i], isAlphabetic)
        {
          assert list[..i + 1][..i] == list[..i];
          var v := RunCommandInner(list[i], isAlphabetic);
          results := results + [v];
        }
        assert list[..|list|] == list;
        r := ReturnValue.Batch(results);
    }
  }

  /** The statics of the library: `INITIAL_PROCESSED_BYTES`, with the
      values stored into it so far. */
  class TextOpsStatics {
    var initialProcessedBytes: u64
    ghost var stored: seq<u64>

    /** The cell holds the last value stored, or 0 before any store. */
    ghost predicate Valid()
      reads this
    {
      initialProcessedBytes == if stored == [] then 0 else stored[|stored| - 1]
    }

    constructor ()
      ensures Valid() && stored == []
    {
      initialProcessedBytes := 0;
      stored := [];
    }

    /** `set_initial_processed_bytes`. */
    method SetInitialProcessedBytes(n: u64)
      requires Valid()
      modifies this
      ensures Valid() && stored == old(stored) + [n]
    {
      initialProcessedBytes := n;
      stored := stored + [n];
    }

    /** `new`: a fresh state whose counter starts at the last value passed
        to `set_initial_processed_bytes`, or at 0. */
    method New() returns (state: TextOperationState)
      requires Valid()
      ensures fresh(state)
      ensures state.processedBytes == if stored == [] then 0 else stored[|stored| - 1]
    {
      state := new TextOperationState(initialProcessedBytes);
    }
  }
}
