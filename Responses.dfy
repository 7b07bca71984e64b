/**
 * An HTTP response as the middlewares see it after the application has
 * produced it: a status and a header map they update in place.
 */
module Responses {
  class Response {
    var status: int
    var headers: map<string, string>

    constructor (status: int, headers: map<string, string>)
      ensures this.status == status && this.headers == headers
    {
      this.status := status;
      this.headers := headers;
    }

    /** `headers[name] = value`. */
    method Set(name: string, value: string)
      modifies this
      ensures headers == old(headers)[name := value]
      ensures status == old(status)
    {
      headers := headers[name := value];
    }

    /** `headers.setdefault(name, value)`: writes only a missing header. */
    method SetDefault(name: string, value: string)
      modifies this
      ensures headers == if name in old(headers) then old(headers) else old(headers)[name := value]
      ensures status == old(status)
    {
      if name !in headers {
        headers := headers[name := value];
      }
    }
  }
}
