/** The day and month words of the date-time skill's month-date string. */
module DateStrings {
  import opened Wrappers
  import opened Messages

  /** Python's `s.split(sep)` for a one-character separator: empty words are kept. */
  function Split(s: string, sep: char): (parts: seq<string>)
    ensures |parts| >= 1
    ensures forall k :: 0 <= k < |parts| ==> sep !in parts[k]
    decreases |s|
  {
    if s == [] then [""]
    else
      var rest := Split(s[1..], sep);
      if s[0] == sep then [""] + rest
      else [[s[0]] + rest[0]] + rest[1..]
  }

  /** `sep.join(parts)`. */
  function Join(parts: seq<string>, sep: char): string
    requires |parts| >= 1
  {
    if |parts| == 1 then parts[0] else parts[0] + [sep] + Join(parts[1..], sep)
  }

  /** Joining the pieces of a split gives back the string. */
  lemma {:induction false} JoinSplit(s: string, sep: char)
    ensures Join(Split(s, sep), sep) == s
    decreases |s|
  {
    if s != [] {
      JoinSplit(s[1..], sep);
      var rest := Split(s[1..], sep);
      if s[0] != sep {
        assert s == [s[0]] + s[1..];
        if |rest| > 1 {
          assert ([[s[0]] + rest[0]] + rest[1..])[1..] == rest[1..];
        }
      } else {
        assert ([""] + rest)[1..] == rest;
      }
    }
  }

  /** Splitting a join of separator-free words gives back the words. */
  lemma {:induction false} SplitJoin(parts: seq<string>, sep: char)
    requires |parts| >= 1
    requires forall k :: 0 <= k < |parts| ==> sep !in parts[k]
    ensures Split(Join(parts, sep), sep) == parts
    decreases |parts|, |parts[0]|
  {
    if |parts| == 1 {
      SplitWord(parts[0], sep);
    } else {
      var tail := parts[1..];
      SplitJoin(tail, sep);
      SplitWordThen(parts[0], sep, Join(tail, sep));
      assert parts == [parts[0]] + tail;
    }
  }

  lemma {:induction false} SplitWord(w: string, sep: char)
    requires sep !in w
    ensures Split(w, sep) == [w]
    decreases |w|
  {
    if w != [] {
      SplitWord(w[1..], sep);
      assert w == [w[0]] + w[1..];
    }
  }

  lemma {:induction false} SplitWordThen(w: string, sep: char, rest: string)
    requires sep !in w
    ensures Split(w + [sep] + rest, sep) == [w] + Split(rest, sep)
    decreases |w|
  {
    if w == [] {
      assert w + [sep] + rest == [sep] + rest;
      assert ([sep] + rest)[1..] == rest;
    } else {
      SplitWordThen(w[1..], sep, rest);
      assert (w + [sep] + rest)[1..] == w[1..] + [sep] + rest;
      assert w == [w[0]] + w[1..];
    }
  }

  /** A split has at least two pieces exactly when the separator occurs. */
  lemma {:induction false} SplitHasTwo(s: string, sep: char)
    ensures |Split(s, sep)| >= 2 <==> sep in s
    decreases |s|
  {
    if s != [] {
      SplitHasTwo(s[1..], sep);
      assert s == [s[0]] + s[1..];
    }
  }

  /**
   * `split_month_string`: [day, month] from the words of `varstring`, the
   * second word being the day under the 'MDY' date format and the first
   * otherwise; IndexError when there is no second word.
   */
  function SplitMonthString(varstring: string, dateFormat: Option<string>): (r: Result<seq<string>, PyError>)
    ensures r.Ok? <==> ' ' in varstring
    ensures r.Err? ==> r.error == IndexError
    ensures r.Ok? ==> |r.value| == 2 && ' ' !in r.value[0] && ' ' !in r.value[1]
  {
    SplitHasTwo(varstring, ' ');
    var words := Split(varstring, ' ');
    if |words| < 2 then Err(IndexError)
    else if dateFormat == Some("MDY") then Ok([words[1], words[0]])
    else Ok([words[0], words[1]])
  }

  /** On a string of words, the day and month are the words the date format names. */
  lemma SplitMonthStringOfWords(words: seq<string>, dateFormat: Option<string>)
    requires |words| >= 2
    requires forall k :: 0 <= k < |words| ==> ' ' !in words[k]
    ensures SplitMonthString(Join(words, ' '), dateFormat) ==
            if dateFormat == Some("MDY") then Ok([words[1], words[0]]) else Ok([words[0], words[1]])
  {
    SplitJoin(words, ' ');
  }
}
