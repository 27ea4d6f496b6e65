/** The `/extract/` handler's use of the parser: the dictionary it returns is
    checked for an "error" key before it is handed back. */
module App {
  import opened Wrappers
  import Extractor

  /** The value under the "error" key, which the handler puts in its error message. */
  function ErrorDetail(info: map<string, seq<string>>): seq<string>
  {
    if "error" in info then info["error"] else []
  }

  /** Runs the parser on the model's reply and rejects a result carrying an
      "error" key. The parser's dictionary only ever has its four list keys,
      so the rejection is never taken and the result is always the parse. */
  method ExtractEmailInfo(response: string) returns (r: Result<map<string, seq<string>>, seq<string>>)
    ensures r == Success(Extractor.ToDict(Extractor.Scan(response)))
  {
    var info := Extractor.Parse(response);
    if "error" in info {
      return Failure(ErrorDetail(info));
    }
    r := Success(info);
  }
}
