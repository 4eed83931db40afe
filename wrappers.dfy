/** Option and Result, plus the Python exceptions the modelled code raises. */
module Wrappers {

  datatype Option<+T> = None | Some(value: T) {
    function GetOr(default: T): T {
      match this
      case Some(v) => v
      case None => default
    }
  }

  datatype Result<+T, +E> = Ok(value: T) | Err(error: E)

  /** Why a ValueError, TypeError, AttributeError or RuntimeError was raised. */
  datatype Why =
    | RealTrainCodesEmpty   // download_export_loaded_box_xlsx with no codes
    | CaptchaUrlMissing     // captcha.url not configured
    | CaptchaImageMissing   // captcha response without image field
    | LoginUrlMissing       // login.url not configured
    | TokenMissing          // login response without token
    | NotAnInteger          // int() of a value it cannot convert
    | NotIterable           // list()/extend() of a scalar
    | NoGetMethod           // .get on something that is not a dict
    | NoStripMethod         // .strip on something that is not a string
    | NotAString            // re.match on something that is not a string
    | RaiseNone             // `raise None` after zero attempts
    | NoExceptionCaptured   // the downloader's explicit RuntimeError
    | WorksheetMissing      // read_excel of a workbook without the named sheet

  datatype Error =
    | RequestFailed(reason: string)   // transport failure or raise_for_status
    | JsonDecodeError                 // response.json() on a non-JSON body
    | Base64Error                     // base64.b64decode rejected its input
    | ValueError(why: Why)
    | TypeError(why: Why)
    | AttributeError(why: Why)
    | RuntimeError(why: Why)
    | KeyError(key: string)
    | FileNotFoundError(path: string)
    | ZeroDivisionError
}
