/**
 * How an upload names its object in the `room-images` bucket:
 * `<owner id>/<Date.now()>_<random token>.<extension>`, where the extension
 * is `file.name.split('.').pop()`.
 */
module ObjectNames {

  /** JavaScript's `s.split(sep)` for a one-character separator: never empty, no part holds `sep`. */
  function Split(s: string, sep: char): (parts: seq<string>)
    ensures |parts| >= 1
    ensures forall i :: 0 <= i < |parts| ==> sep !in parts[i]
    decreases |s|
  {
    if |s| == 0 then [""]
    else if s[0] == sep then [""] + Split(s[1..], sep)
    else
      var rest := Split(s[1..], sep);
      [[s[0]] + rest[0]] + rest[1..]
  }

  /** `parts.join(sep)`. */
  function Join(parts: seq<string>, sep: char): string
    requires |parts| >= 1
    decreases |parts|
  {
    if |parts| == 1 then parts[0] else parts[0] + [sep] + Join(parts[1..], sep)
  }

  function Last<T>(s: seq<T>): T
    requires |s| >= 1
  {
    s[|s| - 1]
  }

  /** Splitting and joining again gives back the original text. */
  lemma {:induction false} JoinOfSplit(s: string, sep: char)
    ensures Join(Split(s, sep), sep) == s
    decreases |s|
  {
    if |s| > 0 {
      var rest := Split(s[1..], sep);
      JoinOfSplit(s[1..], sep);
      assert s == [s[0]] + s[1..];
      if s[0] == sep {
        SplitSeparatorFirst(sep, s[1..]);
        assert ([""] + rest)[1..] == rest;
      } else {
        SplitCons(s[0], s[1..], sep);
        var parts := [[s[0]] + rest[0]] + rest[1..];
        if |rest| > 1 {
          assert parts[1..] == rest[1..];
          assert Join(rest, sep) == rest[0] + [sep] + Join(rest[1..], sep);
        }
      }
    }
  }

  /** Joining parts that hold no separator and splitting again gives back the parts. */
  lemma {:induction false} SplitOfJoin(parts: seq<string>, sep: char)
    requires |parts| >= 1
    requires forall i :: 0 <= i < |parts| ==> sep !in parts[i]
    ensures Split(Join(parts, sep), sep) == parts
    decreases |parts|
  {
    if |parts| == 1 {
      SplitWithoutSeparator(parts[0], sep);
    } else {
      SplitOfJoin(parts[1..], sep);
      SplitWithoutSeparator(parts[0], sep);
      SplitAround(parts[0], sep, Join(parts[1..], sep));
      assert parts == [parts[0]] + parts[1..];
    }
  }

  /** Text without the separator is a single part. */
  lemma {:induction false} SplitWithoutSeparator(s: string, sep: char)
    requires sep !in s
    ensures Split(s, sep) == [s]
    decreases |s|
  {
    if |s| > 0 {
      SplitWithoutSeparator(s[1..], sep);
      assert s == [s[0]] + s[1..];
    }
  }

  /** A separator between two texts splits exactly there. */
  lemma {:induction false} SplitAround(a: string, sep: char, b: string)
    ensures Split(a + [sep] + b, sep) == Split(a, sep) + Split(b, sep)
    decreases |a|
  {
    if |a| == 0 {
      assert a + [sep] + b == [sep] + b;
      SplitSeparatorFirst(sep, b);
    } else {
      var s1 := a[1..] + [sep] + b;
      assert a + [sep] + b == [a[0]] + s1;
      assert a == [a[0]] + a[1..];
      SplitAround(a[1..], sep, b);
      if a[0] == sep {
        SplitSeparatorFirst(sep, s1);
        SplitSeparatorFirst(sep, a[1..]);
      } else {
        SplitCons(a[0], s1, sep);
        SplitCons(a[0], a[1..], sep);
        PrependFirst(a[0], Split(a[1..], sep), Split(b, sep));
      }
    }
  }

  /** Prepending a character to the first part commutes with appending further parts. */
  lemma PrependFirst(c: char, left: seq<string>, right: seq<string>)
    requires |left| >= 1
    ensures [[c] + (left + right)[0]] + (left + right)[1..] == ([[c] + left[0]] + left[1..]) + right
  {
    assert (left + right)[0] == left[0];
    assert (left + right)[1..] == left[1..] + right;
  }

  /** Splitting a text that starts with a non-separator extends the first part. */
  lemma SplitCons(c: char, s: string, sep: char)
    requires c != sep
    ensures var rest := Split(s, sep);
      Split([c] + s, sep) == [[c] + rest[0]] + rest[1..]
  {
    assert ([c] + s)[1..] == s;
  }

  /** Splitting a text that starts with the separator begins with an empty part. */
  lemma SplitSeparatorFirst(sep: char, s: string)
    ensures Split([sep] + s, sep) == [""] + Split(s, sep)
  {
    assert ([sep] + s)[1..] == s;
  }

  /** `file.name.split('.').pop()`: the text after the last '.', or the whole name when it has none. */
  function Extension(fileName: string): (ext: string)
    ensures '.' !in ext
    ensures |ext| <= |fileName| && fileName[|fileName| - |ext|..] == ext
  {
    var parts := Split(fileName, '.');
    JoinOfSplit(fileName, '.');
    if |parts| == 1 then
      assert fileName == parts[0];
      Last(parts)
    else
      JoinLast(parts, '.');
      Last(parts)
  }

  /** The last part of a join is what follows the join of the others and one separator. */
  lemma {:induction false} JoinLast(parts: seq<string>, sep: char)
    requires |parts| >= 2
    ensures Join(parts, sep) == Join(parts[..|parts| - 1], sep) + [sep] + Last(parts)
    decreases |parts|
  {
    if |parts| > 2 {
      JoinLast(parts[1..], sep);
      assert parts[1..][..|parts| - 2] == parts[..|parts| - 1][1..];
    }
  }

  /**
   * The extension is the longest suffix of the name free of '.': it is the
   * whole name when the name has no '.', and otherwise it directly follows
   * the name's last '.'.
   */
  lemma ExtensionIsLastDotFreeSuffix(fileName: string)
    ensures var ext := Extension(fileName);
      && |ext| <= |fileName|
      && fileName[|fileName| - |ext|..] == ext
      && '.' !in ext
      && ('.' !in fileName <==> ext == fileName)
      && ('.' in fileName ==> fileName[|fileName| - |ext| - 1] == '.')
  {
    var parts := Split(fileName, '.');
    var ext := Last(parts);
    JoinOfSplit(fileName, '.');
    if |parts| == 1 {
      assert fileName == parts[0];
    } else {
      JoinLast(parts, '.');
      var front := Join(parts[..|parts| - 1], '.');
      assert fileName == front + ['.'] + ext;
      assert fileName[|front|] == '.';
      assert fileName[|fileName| - |ext|..] == ext;
    }
  }

  function DigitChar(d: nat): char
    requires d < 10
  {
    "0123456789"[d]
  }

  /** The value of a decimal digit character. */
  function DigitValue(c: char): nat
    requires '0' <= c <= '9'
  {
    (c - '0') as nat
  }

  /** The number a run of decimal digits denotes, most significant first. */
  function DecimalValue(text: string): nat
    requires forall i :: 0 <= i < |text| ==> '0' <= text[i] <= '9'
    decreases |text|
  {
    if |text| == 0 then 0
    else DecimalValue(text[..|text| - 1]) * 10 + DigitValue(text[|text| - 1])
  }

  /** `String(n)` for a non-negative integer: its decimal digits, most significant first. */
  function DecimalText(n: nat): (text: string)
    ensures |text| >= 1
    ensures forall i :: 0 <= i < |text| ==> '0' <= text[i] <= '9'
  {
    if n < 10 then [DigitChar(n)] else DecimalText(n / 10) + [DigitChar(n % 10)]
  }

  lemma DigitRoundTrip(d: nat)
    requires d < 10
    ensures DigitValue(DigitChar(d)) == d
  {
  }

  lemma DecimalValueSnoc(front: string, c: char)
    requires forall i :: 0 <= i < |front| ==> '0' <= front[i] <= '9'
    requires '0' <= c <= '9'
    ensures DecimalValue(front + [c]) == DecimalValue(front) * 10 + DigitValue(c)
  {
    assert (front + [c])[..|front|] == front;
  }

  /** The rendered timestamp reads back as the timestamp itself. */
  lemma {:induction false} DecimalTextDenotes(n: nat)
    ensures DecimalValue(DecimalText(n)) == n
    decreases n
  {
    DigitRoundTrip(n % 10);
    if n >= 10 {
      DecimalTextDenotes(n / 10);
      DecimalValueSnoc(DecimalText(n / 10), DigitChar(n % 10));
    }
  }

  /** Distinct timestamps are rendered as distinct texts. */
  lemma DecimalTextInjective(a: nat, b: nat)
    requires DecimalText(a) == DecimalText(b)
    ensures a == b
  {
    DecimalTextDenotes(a);
    DecimalTextDenotes(b);
  }

  /**
   * The object name an upload uses:
   * `${user.id}/${Date.now()}_${token}.${fileExt}`.
   */
  function ObjectName(owner: string, now: nat, token: string, fileName: string): (name: string)
    ensures |name| > |owner| + 1 && name[..|owner| + 1] == owner + "/"
    ensures var ext := Extension(fileName);
      |name| > |ext| && name[|name| - |ext| - 1..] == "." + ext
  {
    var ext := Extension(fileName);
    var stem := owner + "/" + DecimalText(now) + "_" + token;
    assert (stem + "." + ext)[..|owner| + 1] == owner + "/";
    assert (stem + "." + ext)[|stem|..] == "." + ext;
    stem + "." + ext
  }

  /** The folder of an object: the text before the first '/' of its name. */
  function Folder(name: string): string {
    Split(name, '/')[0]
  }

  /** An object is stored in its owner's folder, whatever the token and file name hold. */
  lemma ObjectNameInOwnerFolder(owner: string, now: nat, token: string, fileName: string)
    requires '/' !in owner
    ensures Folder(ObjectName(owner, now, token, fileName)) == owner
  {
    var rest := DecimalText(now) + "_" + token + "." + Extension(fileName);
    assert ObjectName(owner, now, token, fileName) == owner + ['/'] + rest;
    SplitAround(owner, '/', rest);
    SplitWithoutSeparator(owner, '/');
  }

  /** The object keeps the selected file's extension, even when the token holds a '.'. */
  lemma ObjectNameKeepsExtension(owner: string, now: nat, token: string, fileName: string)
    ensures Extension(ObjectName(owner, now, token, fileName)) == Extension(fileName)
  {
    var ext := Extension(fileName);
    var stem := owner + "/" + DecimalText(now) + "_" + token;
    assert ObjectName(owner, now, token, fileName) == stem + ['.'] + ext;
    SplitAround(stem, '.', ext);
    SplitWithoutSeparator(ext, '.');
  }
}
