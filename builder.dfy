/**
 * The request builder of pattern/02_builder.go: a builder owns one request object, every
 * setter changes one field of it (or one header) and returns the builder itself, and Build
 * hands out that same object, so later setter calls still show through it.
 */
module Builder {
  /** The fields of a request, as a value. */
  datatype Fields = Fields(httpMethod: string, url: string, headers: map<string, string>, body: string)

  /** One setter call. */
  datatype Step = SetMethod(newMethod: string) | SetURL(url: string) | AddHeader(key: string, value: string) | SetBody(body: string)

  /** The request's fields after one setter call. */
  function Apply(f: Fields, s: Step): Fields {
    match s
    case SetMethod(m) => f.(httpMethod := m)
    case SetURL(u) => f.(url := u)
    case AddHeader(k, v) => f.(headers := f.headers[k := v])
    case SetBody(b) => f.(body := b)
  }

  /** The request's fields after a chain of setter calls. */
  function ApplyAll(f: Fields, steps: seq<Step>): Fields
    decreases |steps|
  {
    if steps == [] then f else ApplyAll(Apply(f, steps[0]), steps[1..])
  }

  /** NewRequestBuilder's request: empty method, URL and body and no headers. */
  const Empty := Fields("", "", map[], "")

  /** Each setter changes exactly its own field (AddHeader exactly its own key). */
  lemma {:induction false} ApplyChangesOne(f: Fields, s: Step)
    ensures var g := Apply(f, s);
      && (g.httpMethod != f.httpMethod ==> s.SetMethod?)
      && (g.url != f.url ==> s.SetURL?)
      && (g.body != f.body ==> s.SetBody?)
      && (forall k :: k in f.headers && (!s.AddHeader? || k != s.key) ==> k in g.headers && g.headers[k] == f.headers[k])
      && (s.AddHeader? ==> g.headers.Keys == f.headers.Keys + {s.key} && g.headers[s.key] == s.value)
      && (!s.AddHeader? ==> g.headers == f.headers)
  {
  }

  /** A later call to the same setter wins: the earlier one leaves no trace. */
  lemma {:induction false} LastWriteWins(f: Fields, s: Step, t: Step)
    requires (s.SetMethod? && t.SetMethod?) || (s.SetURL? && t.SetURL?) || (s.SetBody? && t.SetBody?)
      || (s.AddHeader? && t.AddHeader? && s.key == t.key)
    ensures Apply(Apply(f, s), t) == Apply(f, t)
  {
  }

  /** Setters of different fields (or of different header keys) may be called in either order. */
  lemma {:induction false} DifferentFieldsCommute(f: Fields, s: Step, t: Step)
    requires !((s.SetMethod? && t.SetMethod?) || (s.SetURL? && t.SetURL?) || (s.SetBody? && t.SetBody?)
      || (s.AddHeader? && t.AddHeader? && s.key == t.key))
    ensures Apply(Apply(f, s), t) == Apply(Apply(f, t), s)
  {
  }

  /** A chain split in two is applied in two goes. */
  lemma {:induction false} ApplyAllAppend(f: Fields, a: seq<Step>, b: seq<Step>)
    ensures ApplyAll(f, a + b) == ApplyAll(ApplyAll(f, a), b)
    decreases |a|
  {
    if a != [] {
      assert (a + b)[0] == a[0] && (a + b)[1..] == a[1..] + b;
      ApplyAllAppend(Apply(f, a[0]), a[1..], b);
    } else {
      assert a + b == b;
    }
  }

  /** The method of a built request is the one of the last SetMethod in the chain, and "" when
      there is none. */
  lemma {:induction false} MethodIsLast(steps: seq<Step>, f: Fields)
    ensures ApplyAll(f, steps).httpMethod == LastMethod(f.httpMethod, steps)
    decreases |steps|
  {
    if steps != [] {
      MethodIsLast(steps[1..], Apply(f, steps[0]));
    }
  }

  function LastMethod(initial: string, steps: seq<Step>): string
    decreases |steps|
  {
    if steps == [] then initial
    else LastMethod(if steps[0].SetMethod? then steps[0].newMethod else initial, steps[1..])
  }

  class Request {
    var httpMethod: string
    var url: string
    var headers: map<string, string>
    var body: string

    constructor ()
      ensures Contents() == Empty
    {
      httpMethod, url, headers, body := "", "", map[], "";
    }

    function Contents(): Fields
      reads this
    {
      Fields(httpMethod, url, headers, body)
    }
  }

  class RequestBuilder {
    const request: Request

    /** NewRequestBuilder */
    constructor ()
      ensures fresh(request) && request.Contents() == Empty
    {
      request := new Request();
    }

    method SetMethod(m: string) returns (b: RequestBuilder)
      modifies request
      ensures b == this && request.Contents() == Apply(old(request.Contents()), Step.SetMethod(m))
    {
      request.httpMethod := m;
      return this;
    }

    method SetURL(url: string) returns (b: RequestBuilder)
      modifies request
      ensures b == this && request.Contents() == Apply(old(request.Contents()), Step.SetURL(url))
    {
      request.url := url;
      return this;
    }

    method AddHeader(key: string, value: string) returns (b: RequestBuilder)
      modifies request
      ensures b == this && request.Contents() == Apply(old(request.Contents()), Step.AddHeader(key, value))
    {
      request.headers := request.headers[key := value];
      return this;
    }

    method SetBody(body: string) returns (b: RequestBuilder)
      modifies request
      ensures b == this && request.Contents() == Apply(old(request.Contents()), Step.SetBody(body))
    {
      request.body := body;
      return this;
    }

    /** Build returns the builder's own request, not a copy. */
    method Build() returns (r: Request)
      ensures r == request
    {
      return request;
    }
  }

  /** A request built and then changed through its builder shows the change. */
  method ChangeAfterBuild() returns (r: Request)
    ensures r.httpMethod == "POST" && r.url == "http://example.com"
  {
    var b := new RequestBuilder();
    var _ := b.SetURL("http://example.com");
    r := b.Build();
    var _ := b.SetMethod("POST");
  }
}
