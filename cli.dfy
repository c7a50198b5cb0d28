/** The Go helpers behind the Terraform provider's calls to the `vastai` command line: the argument
    vector handed to the program, the clamped rune slice `substr`, `prependstring`, and the
    contract number cut out of the command's output. A string is its sequence of runes. */
module Cli {
  import opened Wrappers
  import opened Collections

  type Str = seq<char>

  // ---------------------------------------------------------------------------------------------
  // strings.Split with a one-character separator, and its inverse strings.Join

  /** The pieces of `s` between the occurrences of `sep`; an empty `s` gives one empty piece. */
  function Split(s: Str, sep: char): (r: seq<Str>)
    ensures |r| >= 1
    ensures forall k :: 0 <= k < |r| ==> sep !in r[k]
    decreases |s|
  {
    if s == [] then [[]]
    else
      var rest := Split(s[1..], sep);
      if s[0] == sep then [[]] + rest
      else [[s[0]] + rest[0]] + rest[1..]
  }

  /** The pieces joined back together with `sep` between each neighbouring pair. */
  function Join(parts: seq<Str>, sep: char): Str {
    if parts == [] then []
    else if |parts| == 1 then parts[0]
    else parts[0] + [sep] + Join(parts[1..], sep)
  }

  /** Joining the pieces gives back the string that was split. */
  lemma {:induction false} JoinSplit(s: Str, sep: char)
    ensures Join(Split(s, sep), sep) == s
    decreases |s|
  {
    if s != [] {
      var rest := Split(s[1..], sep);
      JoinSplit(s[1..], sep);
      if s[0] == sep {
        assert Split(s, sep) == [[]] + rest;
        assert ([[]] + rest)[1..] == rest;
      } else {
        var r := [[s[0]] + rest[0]] + rest[1..];
        assert r[1..] == rest[1..];
        if |rest| == 1 {
          assert Join(rest, sep) == rest[0];
        } else {
          assert Join(rest, sep) == rest[0] + [sep] + Join(rest[1..], sep);
        }
      }
    }
  }

  /** Splitting a join gives back the pieces, provided none of them holds the separator. */
  lemma {:induction false} SplitJoin(parts: seq<Str>, sep: char)
    requires |parts| >= 1
    requires forall k :: 0 <= k < |parts| ==> sep !in parts[k]
    ensures Split(Join(parts, sep), sep) == parts
    decreases |parts|, |parts[0]|
  {
    var p := parts[0];
    if p == [] {
      if |parts| > 1 {
        var tail := parts[1..];
        SplitJoin(tail, sep);
        assert Join(parts, sep) == [sep] + Join(tail, sep);
        assert ([sep] + Join(tail, sep))[1..] == Join(tail, sep);
        assert parts == [[]] + tail;
      }
    } else {
      var shorter := [p[1..]] + parts[1..];
      assert shorter[1..] == parts[1..];
      assert forall k :: 0 <= k < |shorter| ==> sep !in shorter[k] by {
        forall k | 0 <= k < |shorter| ensures sep !in shorter[k] {
          if k > 0 {
            assert shorter[k] == parts[k];
          }
        }
      }
      SplitJoin(shorter, sep);
      var j := Join(parts, sep);
      if |parts| == 1 {
        assert j == p && Join(shorter, sep) == p[1..];
      } else {
        assert j == p + [sep] + Join(parts[1..], sep);
        assert Join(shorter, sep) == p[1..] + [sep] + Join(parts[1..], sep);
      }
      assert j[0] == p[0] && j[1..] == Join(shorter, sep);
      assert p[0] != sep by {
        assert p[0] in parts[0];
      }
      assert [p[0]] + p[1..] == p;
      assert parts == [p] + parts[1..];
    }
  }

  // ---------------------------------------------------------------------------------------------
  // The argument vector of `cli`

  /** `[program, command]` followed by the space-separated pieces of `args`. */
  function CommandVector(program: Str, command: Str, args: Str): (fullCmd: seq<Str>)
    ensures |fullCmd| >= 3
    ensures fullCmd[0] == program && fullCmd[1] == command
    ensures Join(fullCmd[2..], ' ') == args
    ensures forall k :: 2 <= k < |fullCmd| ==> ' ' !in fullCmd[k]
  {
    var argArr := Split(args, ' ');
    JoinSplit(args, ' ');
    var fullCmd := [program, command] + argArr;
    assert fullCmd[2..] == argArr;
    fullCmd
  }

  /** Arguments given as pieces without spaces reach the program as exactly those pieces. */
  lemma CommandVectorOfWords(program: Str, command: Str, words: seq<Str>)
    requires |words| >= 1
    requires forall k :: 0 <= k < |words| ==> ' ' !in words[k]
    ensures CommandVector(program, command, Join(words, ' ')) == [program, command] + words
  {
    SplitJoin(words, ' ');
  }

  // ---------------------------------------------------------------------------------------------
  // substr

  /** `substr(input, start, length)`: the runes from `start`, at most `length` of them, and ""
      once `start` is past the end. `None` is the run-time panic of the slice expression, which
      a negative `start` or a negative `length` inside the string causes. */
  function Substr(input: Str, start: int, length: int): (r: Option<Str>)
    ensures start >= |input| ==> r == Some([])
    ensures r.None? <==> start < |input| && (start < 0 || length < 0)
    ensures r.Some? && length >= 0 ==> |r.value| <= length
    ensures r.Some? && start < |input| ==>
              OccursAt(input, r.value, start) && |r.value| == Min(length, |input| - start)
    ensures 0 <= start && 0 <= length && start + length <= |input| ==> r == Some(input[start..start + length])
  {
    if start >= |input| then
      assert 0 <= length && start + length <= |input| ==> input[start..start + length] == [];
      Some([])
    else
      var len := if start + length > |input| then |input| - start else length;
      if start < 0 || len < 0 then None else Some(input[start..start + len])
  }

  /** A piece placed after a prefix is cut out again by its position and its length. */
  lemma SubstrOfSplice(p: Str, w: Str, q: Str)
    ensures Substr(p + w + q, |p|, |w|) == Some(w)
  {
    var s := p + w + q;
    assert s[|p|..|p| + |w|] == w;
  }

  /** Asking for more runes than remain yields the rest of the string. */
  lemma SubstrAtEnd(p: Str, w: Str, length: int)
    requires length >= |w|
    ensures Substr(p + w, |p|, length) == Some(w)
  {
    var s := p + w;
    if w != [] {
      assert s[|p|..|s|] == w;
    }
  }

  // ---------------------------------------------------------------------------------------------
  // The contract number in the output of `vastai create instance`

  const NewContractKey: Str := "'new_contract'"

  /** The seven runes starting 16 past the key's first position (the key's 14 runes and a
      two-rune gap). When the key is missing, strings.Index gives -1 and the start is 15. */
  function ContractNumber(resp: Str): (num: Str)
    ensures |num| <= 7
    ensures IndexOf(resp, NewContractKey) + 16 < |resp| ==> OccursAt(resp, num, IndexOf(resp, NewContractKey) + 16)
    ensures var start := IndexOf(resp, NewContractKey) + 16;
            num == if start >= |resp| then [] else resp[start..start + Min(7, |resp| - start)]
  {
    var index := IndexOf(resp, NewContractKey);
    var r := Substr(resp, index + 16, 7);
    r.value
  }

  /** With the key in the output, the contract number is what follows the key and the gap. */
  lemma ContractAfterKey(pre: Str, gap: Str, num: Str, rest: Str)
    requires |gap| == 2 && |num| == 7
    requires forall j :: 0 <= j < |pre| ==> !OccursAt(pre + NewContractKey + gap + num + rest, NewContractKey, j)
    ensures ContractNumber(pre + NewContractKey + gap + num + rest) == num
  {
    var resp := pre + NewContractKey + gap + num + rest;
    assert resp[|pre|..|pre| + |NewContractKey|] == NewContractKey;
    assert OccursAt(resp, NewContractKey, |pre|);
    var index := IndexOf(resp, NewContractKey);
    assert index == |pre|;
    assert resp == (pre + NewContractKey + gap) + num + rest;
    SubstrOfSplice(pre + NewContractKey + gap, num, rest);
  }

  /** Without the key, the number is read from position 15 of the output, whatever is there. */
  lemma ContractWithoutKey(resp: Str)
    requires !Contains(resp, NewContractKey)
    ensures |resp| <= 15 ==> ContractNumber(resp) == []
    ensures |resp| >= 22 ==> ContractNumber(resp) == resp[15..22]
  {
  }

  // ---------------------------------------------------------------------------------------------
  // prependstring

  /** `prependstring(x, y)`: append `y`, move the first |x| elements up by one (the overlapping
      copy runs from the back, as a memmove does), then store `y` in front. */
  method Prepend(x: seq<Str>, y: Str) returns (r: seq<Str>)
    ensures r == [y] + x
  {
    var buf := new Str[|x| + 1];
    var k := 0;
    while k < |x|
      invariant 0 <= k <= |x|
      invariant buf[..k] == x[..k]
    {
      buf[k] := x[k];
      k := k + 1;
    }
    buf[|x|] := y;
    var i := |x|;
    while i > 0
      invariant 0 <= i <= |x|
      invariant buf[..i] == x[..i]
      invariant buf[i + 1..] == x[i..]
      decreases i
    {
      buf[i] := buf[i - 1];
      i := i - 1;
    }
    buf[0] := y;
    r := buf[..];
    assert r[1..] == buf[1..];
  }
}
