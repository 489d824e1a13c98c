/**
 * The page header's avatar fallback: `getInitials` splits the name at
 * single spaces and joins the first character of each piece. An empty
 * piece has no first character; `join` renders that `undefined` as the
 * empty string, so leading, trailing and repeated spaces add nothing.
 */
module Header {
  import opened Text

  /** `parts.map(n => n[0]).join('')`. */
  function FirstChars(parts: seq<string>): string {
    if parts == [] then ""
    else (if parts[0] == "" then "" else [parts[0][0]]) + FirstChars(parts[1..])
  }

  /** `getInitials`: at most one initial per space-separated piece of the name. */
  function GetInitials(name: string): (initials: string)
    ensures |initials| <= multiset(name)[' '] + 1
  {
    var parts := Split(name, ' ');
    FirstCharsBound(parts);
    SplitCount(name, ' ');
    FirstChars(parts)
  }

  lemma {:induction false} FirstCharsAppend(a: seq<string>, b: seq<string>)
    ensures FirstChars(a + b) == FirstChars(a) + FirstChars(b)
    decreases |a|
  {
    if |a| == 0 {
      assert a + b == b;
    } else {
      var t := a[1..];
      FirstCharsAppend(t, b);
      var ab := a + b;
      assert ab != [] && ab[0] == a[0] && ab[1..] == t + b;
    }
  }

  /** One initial at most per piece, and every initial is a character of a piece. */
  lemma {:induction false} FirstCharsBound(parts: seq<string>)
    ensures |FirstChars(parts)| <= |parts|
    ensures forall c :: c in FirstChars(parts) ==> exists i :: 0 <= i < |parts| && c in parts[i]
  {
    if parts != [] {
      FirstCharsBound(parts[1..]);
      forall c | c in FirstChars(parts)
        ensures exists i :: 0 <= i < |parts| && c in parts[i]
      {
        if parts[0] != "" && c == parts[0][0] {
          assert c in parts[0];
        } else {
          assert c in FirstChars(parts[1..]);
          var i :| 0 <= i < |parts[1..]| && c in parts[1..][i];
          assert c in parts[i + 1];
        }
      }
    }
  }

  /**
   * The initials of two names joined by a space are the two initials side
   * by side; with an empty side this says an extra space changes nothing.
   */
  lemma InitialsAroundSpace(a: string, b: string)
    ensures GetInitials(a + " " + b) == GetInitials(a) + GetInitials(b)
  {
    SplitAround(a, ' ', b);
    FirstCharsAppend(Split(a, ' '), Split(b, ' '));
  }

  lemma EmptyName()
    ensures GetInitials("") == ""
  {
  }

  /** A leading space contributes nothing. */
  lemma LeadingSpaceIgnored(name: string)
    ensures GetInitials(" " + name) == GetInitials(name)
  {
    InitialsAroundSpace("", name);
    assert "" + " " + name == " " + name;
  }

  /** A name without spaces is a single piece, so its initials are its first character. */
  lemma SingleWord(name: string)
    requires name != "" && ' ' !in name
    ensures GetInitials(name) == [name[0]]
  {
    SplitCount(name, ' ');
    JoinSplit(name, ' ');
    var parts := Split(name, ' ');
    assert |parts| == 1;
    assert parts == [name];
    assert FirstChars(parts) == [name[0]] + FirstChars(parts[1..]);
  }

  /**
   * There are at most as many initials as pieces between spaces, and every
   * initial is a character of the name other than the space.
   */
  lemma InitialsBound(name: string)
    ensures |GetInitials(name)| <= |Split(name, ' ')|
    ensures |GetInitials(name)| <= |name|
    ensures forall c :: c in GetInitials(name) ==> c in name && c != ' '
  {
    var parts := Split(name, ' ');
    FirstCharsBound(parts);
    FirstCharsAtMostLength(name);
    JoinSplit(name, ' ');
    forall c | c in GetInitials(name)
      ensures c in name && c != ' '
    {
      var i :| 0 <= i < |parts| && c in parts[i];
      PartInJoin(parts, i, [' ']);
      assert ' ' !in parts[i];
    }
  }

  /** Each part of a join occurs inside it. */
  lemma {:induction false} PartInJoin(parts: seq<string>, i: nat, sep: string)
    requires i < |parts|
    ensures forall c :: c in parts[i] ==> c in Join(parts, sep)
  {
    if i > 0 {
      PartInJoin(parts[1..], i - 1, sep);
    }
  }

  /** A name has at least as many characters as initials. */
  lemma {:induction false} FirstCharsAtMostLength(name: string)
    ensures |GetInitials(name)| <= |name|
    decreases |name|
  {
    if name != [] {
      FirstCharsAtMostLength(name[1..]);
      var rest := Split(name[1..], ' ');
      if name[0] == ' ' {
        assert Split(name, ' ') == [""] + rest;
        FirstCharsAppend([""], rest);
      } else {
        var parts := Split(name, ' ');
        assert parts == [[name[0]] + rest[0]] + rest[1..];
        FirstCharsAppend([[name[0]] + rest[0]], rest[1..]);
        assert rest == [rest[0]] + rest[1..];
        FirstCharsAppend([rest[0]], rest[1..]);
      }
    }
  }
}
