/** Column rules from the entity configurations: a required text column
    refuses null, every text column refuses a value longer than its limit,
    and SaveChanges then throws DbUpdateException. */
module Columns {
  import opened Wrappers
  import opened Errors

  const SaveFailed: Error := DbUpdate(SaveChangesFailed)

  /** The length SQL Server's nvarchar(n) measures: UTF-16 code units, so a
      character outside the Basic Multilingual Plane (a surrogate pair) counts twice. */
  function Utf16Length(s: string): (n: nat)
    ensures |s| <= n <= 2 * |s|
  {
    if s == [] then 0 else (if s[0] as int < 0x1_0000 then 1 else 2) + Utf16Length(s[1..])
  }

  /** The UTF-16 length is the character count iff every character is in the Basic Multilingual Plane. */
  lemma {:induction false} Utf16LengthIsCountIffBmp(s: string)
    ensures Utf16Length(s) == |s| <==> forall i :: 0 <= i < |s| ==> s[i] as int < 0x1_0000
  {
    if s != [] {
      Utf16LengthIsCountIffBmp(s[1..]);
      assert forall i :: 1 <= i < |s| ==> s[i] == s[1..][i - 1];
    }
  }

  /** The UTF-16 length of a concatenation is the sum of the two lengths. */
  lemma {:induction false} Utf16LengthConcat(a: string, b: string)
    ensures Utf16Length(a + b) == Utf16Length(a) + Utf16Length(b)
  {
    if a == [] {
      assert a + b == b;
    } else {
      assert (a + b)[0] == a[0] && (a + b)[1..] == a[1..] + b;
      Utf16LengthConcat(a[1..], b);
    }
  }

  predicate Fits(v: Option<string>, maxLength: nat) {
    v.None? || Utf16Length(v.value) <= maxLength
  }

  function RequiredColumn(v: Option<string>, maxLength: nat): (r: Result<string, Error>)
    ensures r.Success? <==> v.Some? && Utf16Length(v.value) <= maxLength
    ensures r.Success? ==> r.value == v.value
    ensures r.Failure? ==> r.error == SaveFailed
  {
    if v.Some? && Utf16Length(v.value) <= maxLength then Success(v.value) else Failure(SaveFailed)
  }

  /** A name of 51 emoji is 51 characters but 102 UTF-16 units, so a 100-unit column refuses it. */
  lemma EmojiNameOverLimit()
    ensures var s := seq(51, _ => '\U{1F600}'); |s| == 51 && RequiredColumn(Some(s), 100).Failure?
  {
    var s := seq(51, _ => '\U{1F600}');
    assert Utf16Length(s) == 2 * |s| by { EmojiLength(s); }
  }

  lemma {:induction false} EmojiLength(s: string)
    requires forall i :: 0 <= i < |s| ==> s[i] == '\U{1F600}'
    ensures Utf16Length(s) == 2 * |s|
  {
    if s != [] {
      EmojiLength(s[1..]);
    }
  }
}
