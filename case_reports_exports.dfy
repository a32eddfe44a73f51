/** The short report id shown in the case reports list. */
module CaseReportsExports {
  import opened JsText

  /** `shortId`: the id without its '-', cut to 10 characters, upper-cased. */
  function ShortId(id: string): string {
    ToUpper(Take(RemoveChar(id, '-'), 10))
  }

  /**
   * The short id has no '-' and no lower-case letter; it is as long as the
   * dash-free id up to 10 characters, and lower-casing it gives back that
   * many of the id's other characters, lower-cased, in order.
   */
  lemma ShortIdSpec(id: string)
    ensures var r := ShortId(id);
      var kept := RemoveChar(id, '-');
      '-' !in r
      && (forall i :: 0 <= i < |r| ==> !IsLower(r[i]))
      && |r| == (if |id| - CountChar(id, '-') < 10 then |id| - CountChar(id, '-') else 10)
      && ToLower(r) == ToLower(kept[..|r|])
  {
    var kept := RemoveChar(id, '-');
    var prefix := Take(kept, 10);
    var r := ShortId(id);
    forall i | 0 <= i < |r| ensures r[i] != '-' {
      assert prefix[i] in kept;
    }
    forall i | 0 <= i < |r| ensures LowerChar(r[i]) == LowerChar(kept[i]) {
      assert prefix[i] == kept[i];
      UpperLower(prefix[i]);
    }
  }

  lemma UpperLower(c: char)
    ensures LowerChar(UpperChar(c)) == LowerChar(c)
  {
  }

  /** Shortening a short id leaves it as it is. */
  lemma ShortIdIdempotent(id: string)
    ensures ShortId(ShortId(id)) == ShortId(id)
  {
    var r := ShortId(id);
    ShortIdSpec(id);
    RemoveCharAbsent(r, '-');
    assert ToUpper(r) == r;
  }

  /** Removing a character that does not occur changes nothing. */
  lemma {:induction false} RemoveCharAbsent(s: string, c: char)
    requires c !in s
    ensures RemoveChar(s, c) == s
  {
    if s != [] {
      assert c !in s[1..];
      RemoveCharAbsent(s[1..], c);
      assert s == [s[0]] + s[1..];
    }
  }
}
