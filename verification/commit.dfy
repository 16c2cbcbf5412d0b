/** The commit projection (`GitCommit`): the full hash as the library
    reports it and the abbreviated hash shown beside each commit. */
module Commit {
  import opened Wrappers

  /** The fields of a library commit the projection reads. */
  datatype Commit = Commit(sha: string, messageShort: string)

  /** `Substring(0, 7)` on a string shorter than seven characters raises. */
  datatype SubstringError = ArgumentOutOfRange

  const ShortLength := 7

  predicate IsLowerHex(c: char) {
    '0' <= c <= '9' || 'a' <= c <= 'f'
  }

  /** A full object name: 40 lowercase hexadecimal characters. */
  predicate IsFullSha(s: string) {
    |s| == 40 && forall k :: 0 <= k < |s| ==> IsLowerHex(s[k])
  }

  /** The first seven characters of the hash. */
  function ShortSha(sha: string): (r: Result<string, SubstringError>)
    ensures r.Success? <==> |sha| >= ShortLength
    ensures r.Success? ==> |r.value| == ShortLength && r.value <= sha
  {
    if |sha| < ShortLength then Failure(ArgumentOutOfRange) else Success(sha[..ShortLength])
  }

  /** Every full object name has a seven-character lowercase-hex short form
      that it starts with. */
  lemma ShortShaOfFullSha(sha: string)
    requires IsFullSha(sha)
    ensures ShortSha(sha).Success?
    ensures |ShortSha(sha).value| == 7 && ShortSha(sha).value <= sha
    ensures forall k :: 0 <= k < 7 ==> IsLowerHex(ShortSha(sha).value[k])
  {
  }

  /** The display text of a commit: its short hash, a space and the first
      line of its message. */
  function CommitText(c: Commit): (r: Result<string, SubstringError>)
    ensures r.Success? <==> |c.sha| >= ShortLength
    ensures r.Success? ==> |r.value| == ShortLength + 1 + |c.messageShort|
    ensures r.Success? ==>
      r.value[..ShortLength] == c.sha[..ShortLength]
      && r.value[ShortLength..] == " " + c.messageShort
  {
    match ShortSha(c.sha)
    case Failure(e) => Failure(e)
    case Success(s) => Success(s + " " + c.messageShort)
  }
}
