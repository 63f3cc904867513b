/** Shared value types: optional values and the outcome of code that may raise. */
module Common {

  datatype Option<+T> = None | Some(value: T)

  /** Ok carries the returned value, Err the exception that escaped. */
  datatype Result<+T, +E> = Ok(value: T) | Err(error: E)
}

/** Decimal numerals, as Python's str() and f-strings write integers. */
module Decimals {

  function Digit(d: nat): char
    requires d < 10
  {
    ['0', '1', '2', '3', '4', '5', '6', '7', '8', '9'][d]
  }

  predicate IsDigit(c: char) { '0' <= c <= '9' }

  function DigitValue(c: char): (d: nat)
    requires IsDigit(c)
    ensures d < 10 && Digit(d) == c
  {
    (c as int) - ('0' as int)
  }

  function Decimal(n: nat): (s: string)
    ensures s != [] && forall i | 0 <= i < |s| :: IsDigit(s[i])
  {
    if n < 10 then [Digit(n)] else Decimal(n / 10) + [Digit(n % 10)]
  }

  /** The number that a string of digits denotes. */
  function Value(s: string): nat
    requires forall i | 0 <= i < |s| :: IsDigit(s[i])
  {
    if s == [] then 0 else Value(s[..|s| - 1]) * 10 + DigitValue(s[|s| - 1])
  }

  lemma {:induction false} ValueOfDecimal(n: nat)
    ensures Value(Decimal(n)) == n
  {
    var s := Decimal(n);
    if n >= 10 {
      assert s[..|s| - 1] == Decimal(n / 10);
      ValueOfDecimal(n / 10);
    } else {
      assert s[..|s| - 1] == [];
    }
  }

  /** No redundant leading zero. */
  lemma {:induction false} DecimalLeadingDigit(n: nat)
    ensures n > 0 ==> Decimal(n)[0] != '0'
    ensures n == 0 ==> Decimal(n) == "0"
  {
    if n >= 10 { DecimalLeadingDigit(n / 10); }
  }

  lemma FirstBarBounds(d: string, n: string, e: string, m: string)
    requires forall i | 0 <= i < |e| :: IsDigit(e[i])
    requires d + "_" + n == e + "_" + m
    ensures |e| <= |d|
  {
    var t := e + "_" + m;
    assert forall i | 0 <= i < |e| :: t[i] == e[i];
    assert t[|d|] == (d + "_" + n)[|d|] == '_';
  }

  /** A numeral and what follows its underscore are determined by the whole text. */
  lemma DigitsBeforeBar(d: string, n: string, e: string, m: string)
    requires forall i | 0 <= i < |d| :: IsDigit(d[i])
    requires forall i | 0 <= i < |e| :: IsDigit(e[i])
    requires d + "_" + n == e + "_" + m
    ensures d == e && n == m
  {
    FirstBarBounds(d, n, e, m);
    FirstBarBounds(e, m, d, n);
    var s, t := d + "_" + n, e + "_" + m;
    assert s[..|d|] == d && t[..|e|] == e;
    assert s[|d| + 1..] == n && t[|e| + 1..] == m;
  }

  lemma LastBarBounds(n: string, d: string, m: string, e: string)
    requires forall i | 0 <= i < |e| :: IsDigit(e[i])
    requires n + "_" + d == m + "_" + e
    ensures |n| <= |m|
  {
    var t := m + "_" + e;
    assert t[|n|] == (n + "_" + d)[|n|] == '_';
    assert forall i | |m| < i < |t| :: t[i] == e[i - |m| - 1];
  }

  /** A numeral after the last underscore, and what precedes it, are determined by the text. */
  lemma BarBeforeDigits(n: string, d: string, m: string, e: string)
    requires forall i | 0 <= i < |d| :: IsDigit(d[i])
    requires forall i | 0 <= i < |e| :: IsDigit(e[i])
    requires n + "_" + d == m + "_" + e
    ensures n == m && d == e
  {
    LastBarBounds(n, d, m, e);
    LastBarBounds(m, e, n, d);
    var s, t := n + "_" + d, m + "_" + e;
    assert s[..|n|] == n && t[..|m|] == m;
    assert s[|n| + 1..] == d && t[|m| + 1..] == e;
  }
}

/** Slices with Python's treatment of negative, large and absent bounds. */
module Slices {
  import opened Common

  function Clamp(i: int, n: nat): nat {
    if i < 0 then (if i + n < 0 then 0 else i + n) else if i > n then n else i
  }

  /** s[start:end] */
  function Slice<T>(s: seq<T>, start: int, end: Option<int>): seq<T> {
    var lo := Clamp(start, |s|);
    var hi := if end.Some? then Clamp(end.value, |s|) else |s|;
    if lo < hi then s[lo..hi] else []
  }
}

/** Lists of lists. */
module Lists {

  /** All entries of the inner lists, in order. */
  function Flatten<T>(lists: seq<seq<T>>): seq<T> {
    if lists == [] then [] else Flatten(lists[..|lists| - 1]) + lists[|lists| - 1]
  }

  lemma {:induction false} FlattenConcat<T>(a: seq<seq<T>>, b: seq<seq<T>>)
    ensures Flatten(a + b) == Flatten(a) + Flatten(b)
    decreases |b|
  {
    if b == [] {
      assert a + b == a && Flatten(a) + [] == Flatten(a);
    } else {
      var front, last := b[..|b| - 1], b[|b| - 1];
      assert (a + b)[..|a + b| - 1] == a + front;
      FlattenConcat(a, front);
      assert (Flatten(a) + Flatten(front)) + last == Flatten(a) + (Flatten(front) + last);
    }
  }

  lemma FlattenSnoc<T>(front: seq<seq<T>>, last: seq<T>)
    ensures Flatten(front + [last]) == Flatten(front) + last
  {
    assert (front + [last])[..|front|] == front;
  }

  lemma FlattenOne<T>(list: seq<T>)
    ensures Flatten([list]) == list
  {
    assert [list][..0] == [] && [] + list == list;
  }

  lemma FlattenCons<T>(first: seq<T>, rest: seq<seq<T>>)
    ensures Flatten([first] + rest) == first + Flatten(rest)
  {
    FlattenConcat([first], rest);
    FlattenOne(first);
  }
}

/** Searching in strings. */
module Substrings {

  predicate StandsAt(part: string, whole: string, i: int) {
    0 <= i <= |whole| - |part| && whole[i..i + |part|] == part
  }

  /** part in whole */
  predicate Within(part: string, whole: string) {
    exists i | 0 <= i <= |whole| :: StandsAt(part, whole, i)
  }
}

/** Paths as pathlib reads them where the separator is a slash. */
module Paths {

  /** What follows the last slash. */
  function FileName(path: string): (name: string)
    ensures |name| <= |path|
  {
    if path == "" || path[|path| - 1] == '/' then "" else FileName(path[..|path| - 1]) + [path[|path| - 1]]
  }

  /** What precedes it, with the slash. */
  function Folder(path: string): string { path[..|path| - |FileName(path)|] }

  function Kept(component: string): seq<string> { if component == "" || component == "." then [] else [component] }

  /** The components of a path: empty ones and dots are dropped. */
  function Parts(path: string): seq<string>
    decreases |path|
  {
    var name := FileName(path);
    if |name| == |path| then Kept(name) else Parts(path[..|path| - |name| - 1]) + Kept(name)
  }

  predicate Absolute(path: string) { path != "" && path[0] == '/' }

  /** Where a path leads: two spellings of one path name the same file. */
  datatype Location = Location(absolute: bool, parts: seq<string>)

  function Locate(path: string): Location { Location(Absolute(path), Parts(path)) }

  function Last(parts: seq<string>): string { if parts == [] then "" else parts[|parts| - 1] }

  /** pathlib's name: the last component. */
  function Name(path: string): string { Last(Parts(path)) }

  predicate Slashless(name: string) { forall i | 0 <= i < |name| :: name[i] != '/' }

  lemma {:induction false} FileNameAppend(path: string, tail: string)
    requires Slashless(tail)
    ensures FileName(path + tail) == FileName(path) + tail
    decreases |tail|
  {
    if tail == "" {
      assert path + tail == path;
    } else {
      var front := tail[..|tail| - 1];
      assert (path + tail)[..|path + tail| - 1] == path + front;
      FileNameAppend(path, front);
      assert front + [tail[|tail| - 1]] == tail;
    }
  }

  /** A path is its folder and its file name, which has no slash; the folder ends with one. */
  lemma {:induction false} FolderAndFile(path: string)
    ensures Folder(path) + FileName(path) == path && Slashless(FileName(path))
    ensures Folder(path) != "" ==> Folder(path)[|Folder(path)| - 1] == '/'
  {
    if path != "" && path[|path| - 1] != '/' {
      var front := path[..|path| - 1];
      FolderAndFile(front);
      assert Folder(path) == Folder(front);
      assert front + [path[|path| - 1]] == path;
    }
  }

  /** A text without slashes is its own file name and at most one component. */
  lemma SlashlessParts(name: string)
    requires Slashless(name)
    ensures FileName(name) == name && Folder(name) == "" && Parts(name) == Kept(name)
  {
    FileNameAppend("", name);
    assert "" + name == name;
  }

  lemma PartsStep(path: string, name: string)
    requires FileName(path) == name && |name| < |path|
    ensures Parts(path) == Parts(path[..|path| - |name| - 1]) + Kept(name)
  {
  }

  /** The components of a folder and a name in it. */
  lemma PartsOfPair(folder: string, name: string)
    requires folder == "" || folder[|folder| - 1] == '/'
    requires FileName(folder + name) == name
    ensures Parts(folder + name) == Parts(folder) + Kept(name)
  {
    var whole := folder + name;
    if folder == "" {
      assert whole == name;
    } else {
      var dir := folder[..|folder| - 1];
      PartsStep(whole, name);
      PartsStep(folder, "");
      assert whole[..|whole| - |name| - 1] == dir;
      assert Parts(dir) + Kept("") == Parts(dir);
    }
  }

  /** Extending the last name extends the last component and leaves the folder alone. */
  lemma PartsOfFile(path: string, tail: string)
    requires Slashless(tail) && Kept(FileName(path) + tail) != []
    ensures Parts(path + tail) == Parts(Folder(path)) + [FileName(path) + tail]
    ensures Absolute(path + tail) == Absolute(Folder(path))
  {
    FileNameAppend(path, tail);
    FolderAndFile(path);
    PartsOfLonger(path, Folder(path), FileName(path), tail);
  }

  lemma PartsOfLonger(path: string, folder: string, file: string, tail: string)
    requires path == folder + file && Slashless(file) && Slashless(tail) && Kept(file + tail) != []
    requires folder == "" || folder[|folder| - 1] == '/'
    requires FileName(path + tail) == file + tail
    ensures Parts(path + tail) == Parts(folder) + [file + tail] && Absolute(path + tail) == Absolute(folder)
  {
    assert path + tail == folder + (file + tail);
    PartsOfPair(folder, file + tail);
    AbsoluteFolder(folder, file + tail);
  }

  lemma AbsoluteFolder(folder: string, name: string)
    requires Slashless(name)
    ensures Absolute(folder + name) == Absolute(folder)
  {
  }
}
