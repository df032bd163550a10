/** The upload rules of server.js: multer's fileFilter, its size limit, and the name under which
    an accepted image is stored in the uploads directory. */
module Upload {
  import opened Outcomes
  import opened Js
  import NodePath

  /** multer's `limits.fileSize`: 10 MB. */
  const MaxFileSize: nat := 10 * 1024 * 1024

  /** The file part of a multipart request, as multer sees it. */
  datatype File = File(originalName: string, mimetype: string, size: nat)

  /** fileFilter: only mimetypes starting with "image/" are let through (case-sensitively). */
  predicate AcceptsMimeType(mimetype: string): (ok: bool)
    ensures ok <==> exists subtype :: mimetype == "image/" + subtype
  {
    assert "image/" <= mimetype ==> mimetype == "image/" + mimetype[6..];
    "image/" <= mimetype
  }

  /** What multer decides about a file part: the fileFilter runs first, before any byte is
      stored; the size limit trips while the part is streamed. */
  function CheckFile(f: File): (r: Option<Failure>)
    ensures r == None <==> AcceptsMimeType(f.mimetype) && f.size <= MaxFileSize
    ensures r == Some(NotAnImage) <==> !AcceptsMimeType(f.mimetype)
    ensures r == Some(FileTooLarge) <==> AcceptsMimeType(f.mimetype) && f.size > MaxFileSize
  {
    if !AcceptsMimeType(f.mimetype) then Some(NotAnImage)
    else if f.size > MaxFileSize then Some(FileTooLarge)
    else None
  }

  /** The stored name: String(Date.now()) + "-" + String(Math.round(Math.random() * 1E9)) +
      path.extname(originalname); the clock reading and the random number are parameters.
      The name is a plain file name directly inside the uploads directory: it holds no '/'
      and starts with a digit, so it is never a dot file. */
  function StoredName(timestamp: nat, random: nat, originalName: string): (name: string)
    ensures name != [] && IsDigit(name[0]) && '/' !in name
  {
    var a, b := DecimalString(timestamp), DecimalString(random);
    var e := NodePath.ExtName(originalName);
    DigitsHoldNoSeparator(a);
    DigitsHoldNoSeparator(b);
    assert '/' !in e by {
      forall k | 0 <= k < |e| ensures e[k] != '/' {
        if k == 0 { assert e[0] == '.'; }
      }
    }
    assert (a + "-" + b + e)[0] == a[0];
    a + "-" + b + e
  }

  /** The three parts a stored name is built from. */
  datatype NameParts = NameParts(timestamp: nat, random: nat, ext: string)

  /** The index of the first occurrence of `ch` in `s`, or -1. */
  function FirstIndexOf(s: string, ch: char): (i: int)
    ensures -1 <= i < |s|
    ensures i == -1 ==> forall k | 0 <= k < |s| :: s[k] != ch
    ensures 0 <= i ==> s[i] == ch && forall k | 0 <= k < i :: s[k] != ch
  {
    if s == [] then -1
    else if s[0] == ch then 0
    else var j := FirstIndexOf(s[1..], ch); if j == -1 then -1 else j + 1
  }

  /** The length of the longest prefix of `s` made of decimal digits. */
  function DigitPrefixLength(s: string): (n: nat)
    ensures n <= |s| && AllDigits(s[..n])
    ensures n < |s| ==> !IsDigit(s[n])
  {
    if s == [] || !IsDigit(s[0]) then 0
    else
      var m := DigitPrefixLength(s[1..]);
      assert s[..m + 1] == [s[0]] + s[1..][..m];
      m + 1
  }

  /** Reads a stored name back into its parts: the digits before the first '-', the digits
      right after it, and whatever follows them. */
  function ParseStoredName(name: string): Option<NameParts>
  {
    var dash := FirstIndexOf(name, '-');
    if dash <= 0 || !AllDigits(name[..dash]) then None
    else
      var rest := name[dash + 1..];
      var m := DigitPrefixLength(rest);
      if m == 0 then None
      else Some(NameParts(DecimalValue(name[..dash]), DecimalValue(rest[..m]), rest[m..]))
  }

  /** A string of digits holds no '-', '.' or '/'. */
  lemma {:induction false} DigitsHoldNoSeparator(s: string)
    requires AllDigits(s)
    ensures '-' !in s && '.' !in s && '/' !in s
  {
    forall k | 0 <= k < |s| ensures s[k] != '-' && s[k] != '.' && s[k] != '/' {
      assert IsDigit(s[k]);
    }
  }

  /** The first '-' of "a-rest", when a is made of digits, is the one after a. */
  lemma {:induction false} DashAfterDigits(a: string, rest: string)
    requires AllDigits(a)
    ensures FirstIndexOf(a + "-" + rest, '-') == |a|
  {
    var name := a + "-" + rest;
    DigitsHoldNoSeparator(a);
    forall k | 0 <= k < |a| ensures name[k] != '-' {
      assert name[k] == a[k];
    }
    assert name[|a|] == '-';
  }

  /** The digit prefix of "b" followed by an extension is b. */
  lemma {:induction false} DigitsBeforeExtension(b: string, e: string)
    requires AllDigits(b)
    requires e == [] || e[0] == '.'
    ensures DigitPrefixLength(b + e) == |b|
  {
    var rest := b + e;
    forall k | 0 <= k < |b| ensures IsDigit(rest[k]) {
      assert rest[k] == b[k];
    }
    assert |b| < |rest| ==> rest[|b|] == '.';
  }

  /** A name put together from two non-empty digit strings and an extension parses into them. */
  lemma {:induction false} ParseComposedName(a: string, b: string, e: string)
    requires a != [] && AllDigits(a) && b != [] && AllDigits(b)
    requires e == [] || e[0] == '.'
    ensures ParseStoredName(a + "-" + b + e) == Some(NameParts(DecimalValue(a), DecimalValue(b), e))
  {
    var name := a + "-" + b + e;
    assert name == a + "-" + (b + e);
    DashAfterDigits(a, b + e);
    assert name[..|a|] == a;
    var rest := name[|a| + 1..];
    assert rest == b + e;
    DigitsBeforeExtension(b, e);
    assert rest[..|b|] == b && rest[|b|..] == e;
  }

  /** A stored name reads back as the clock reading, the random number and the extension of
      the original name it was built from. */
  lemma {:induction false} StoredNameRoundTrip(timestamp: nat, random: nat, originalName: string)
    ensures ParseStoredName(StoredName(timestamp, random, originalName))
         == Some(NameParts(timestamp, random, NodePath.ExtName(originalName)))
  {
    ParseComposedName(DecimalString(timestamp), DecimalString(random), NodePath.ExtName(originalName));
    DecimalRoundTrip(timestamp);
    DecimalRoundTrip(random);
  }

  /** Two stored names are equal only when clock reading, random number and extension all are:
      a collision needs the same millisecond and the same random draw. */
  lemma {:induction false} StoredNameInjective(t1: nat, r1: nat, o1: string, t2: nat, r2: nat, o2: string)
    requires StoredName(t1, r1, o1) == StoredName(t2, r2, o2)
    ensures t1 == t2 && r1 == r2 && NodePath.ExtName(o1) == NodePath.ExtName(o2)
  {
    StoredNameRoundTrip(t1, r1, o1);
    StoredNameRoundTrip(t2, r2, o2);
  }

  /** A non-empty extension is a '.' followed by a tail without '.' or '/'. */
  lemma {:induction false} ExtensionTail(originalName: string)
    requires NodePath.ExtName(originalName) != []
    ensures var e := NodePath.ExtName(originalName);
      e == "." + e[1..] && '.' !in e[1..] && '/' !in e[1..]
  {
    var e := NodePath.ExtName(originalName);
    var tail := e[1..];
    forall k | 0 <= k < |tail| ensures tail[k] != '.' && tail[k] != '/' {
      assert tail[k] == e[k + 1];
    }
  }

  /** The part of a stored name before its extension: two digit strings joined by '-'. */
  lemma {:induction false} StoredBase(timestamp: nat, random: nat)
    ensures var base := DecimalString(timestamp) + "-" + DecimalString(random);
      base != [] && '/' !in base && '.' !in base && base[0] != '.'
  {
    var a, b := DecimalString(timestamp), DecimalString(random);
    DigitsHoldNoSeparator(a);
    DigitsHoldNoSeparator(b);
    assert (a + "-" + b)[0] == a[0];
  }

  /** The stored file keeps the extension of the uploaded file's original name. */
  lemma {:induction false} StoredNameKeepsExtension(timestamp: nat, random: nat, originalName: string)
    ensures NodePath.ExtName(StoredName(timestamp, random, originalName))
         == NodePath.ExtName(originalName)
  {
    var base := DecimalString(timestamp) + "-" + DecimalString(random);
    var e := NodePath.ExtName(originalName);
    StoredBase(timestamp, random);
    if e == [] {
      assert StoredName(timestamp, random, originalName) == base;
      NodePath.ExtNameWithoutDot(base);
    } else {
      ExtensionTail(originalName);
      assert StoredName(timestamp, random, originalName) == base + "." + e[1..];
      assert (base + "." + e[1..])[0] == base[0];
      NodePath.ExtNameOfFileName(base, e[1..]);
    }
  }
}
