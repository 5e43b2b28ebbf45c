/** The error aggregator: joinErrors renders the collected error messages as one. */
module Errors {
  import opened Strings

  /** joinErrors: the messages in order, separated by ", ", with nothing after the last. */
  method JoinErrors(errs: seq<string>) returns (r: string)
    ensures r == Join(errs, ", ")
  {
    r := "";
    for idx := 0 to |errs|
      invariant r == if idx == 0 then "" else Join(errs[..idx], ", ") + (if idx < |errs| then ", " else "")
    {
      assert errs[..idx + 1][..idx] == errs[..idx];
      r := r + errs[idx];
      if idx + 1 < |errs| {
        r := r + ", ";
      }
    }
    assert errs[..|errs|] == errs;
  }
}
