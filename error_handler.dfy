/** The operational error class of the back end (backend/utils/errorHandler.js):
    it keeps a message and an HTTP status code and classifies the code as a
    client failure ("fail") or a server error ("error") by its first
    decimal digit. */
module ErrorHandling {
  import opened Common

  /** `${statusCode}`.startsWith("4") ? "fail" : "error", for an integer code. */
  function StatusOf(statusCode: int): (s: string)
    ensures s == "fail" || s == "error"
  {
    if StartsWith(IntToDecimal(statusCode), "4") then "fail" else "error"
  }

  /** A code whose leading decimal digit is `d` (it lies in
      [d * 10^e, (d + 1) * 10^e)) is a "fail" exactly when d is 4. */
  lemma StatusByLeadingDigit(code: int, d: nat, e: nat)
    requires 1 <= d <= 9
    requires d * Pow10(e) <= code < (d + 1) * Pow10(e)
    ensures StatusOf(code) == if d == 4 then "fail" else "error"
  {
    ExpOfPow10(e);
    LeadingDigit(code, d, Pow10(e));
    var t := IntToDecimal(code);
    assert StartsWith(t, "4") <==> t[0] == '4';
  }

  /** Zero and negative codes are never client failures. */
  lemma NonPositiveIsError(code: int)
    requires code <= 0
    ensures StatusOf(code) == "error"
  {
    var t := IntToDecimal(code);
    assert t[0] != '4';
    assert t[..1][0] == t[0];
  }

  /** Every 4xx code is a "fail" and every 5xx code an "error". */
  lemma HttpClasses(code: int)
    ensures 400 <= code <= 499 ==> StatusOf(code) == "fail"
    ensures 500 <= code <= 599 ==> StatusOf(code) == "error"
  {
    assert Pow10(2) == 100;
    if 400 <= code <= 499 {
      StatusByLeadingDigit(code, 4, 2);
    } else if 500 <= code <= 599 {
      StatusByLeadingDigit(code, 5, 2);
    }
  }

  /** An error object carrying its message, its code and the derived status. */
  class ErrorHandler {
    const message: string
    const statusCode: int
    const status: string
    const isOperational: bool

    constructor (message: string, statusCode: int)
      ensures this.message == message && this.statusCode == statusCode
      ensures status == StatusOf(statusCode)
      ensures isOperational
    {
      this.message := message;
      this.statusCode := statusCode;
      this.status := StatusOf(statusCode);
      this.isOperational := true;
    }
  }
}
