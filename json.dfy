/** The values the browser scripts send to and read back from the server. */
module Json {

  import opened Common
  import opened Text

  /** A JSON / JavaScript scalar as the scripts read it from a parsed body or a form field:
      absent (`undefined`), `null`, a boolean, an integer or a string. */
  datatype Js = Undefined | Null | Bool(b: bool) | Num(n: int) | Str(s: string)

  /** What a template literal `${v}` or `textContent = v` renders for the value. */
  function JsText(v: Js): (r: string)
    ensures v.Str? ==> r == v.s
    ensures v.Num? && v.n >= 0 ==> r == Decimal(v.n)
  {
    match v
    case Undefined => "undefined"
    case Null => "null"
    case Bool(b) => if b then "true" else "false"
    case Num(n) => if n < 0 then "-" + Decimal(-n) else Decimal(n)
    case Str(s) => s
  }

  /** JavaScript truthiness of such a value. */
  predicate Truthy(v: Js) {
    match v
    case Undefined => false
    case Null => false
    case Bool(b) => b
    case Num(n) => n != 0
    case Str(s) => s != ""
  }

  /** What a `fetch(...).then(res => res.json())` chain delivers: a rejected promise (the
      network failed, or the body was not JSON), or a parsed JSON object. */
  datatype Reply = NetworkError | Obj(fields: map<string, Js>)

  /** `data.<key>` of a parsed object. */
  function Field(r: Reply, key: string): (v: Js)
    requires r.Obj?
    ensures key !in r.fields ==> v == Undefined
  {
    if key in r.fields then r.fields[key] else Undefined
  }

  /** The `if (data.success)` test. */
  predicate Succeeded(r: Reply) {
    r.Obj? && Truthy(Field(r, "success"))
  }

  /** A request the scripts send: method, URL and JSON body. */
  datatype Request = Request(verb: string, url: string, body: map<string, Js>)

  /** The create request: `POST /add_collab_task/<LIST_ID>` on a collaboration page,
      `POST /add_task` elsewhere, carrying exactly the four task fields. Both the add form and
      Undo send it. */
  function AddTaskRequest(name: string, priority: string, date: string, time: string, collab: bool, listId: Js): (r: Request)
    ensures r.verb == "POST" && r.body.Keys == {"name", "priority", "date", "time"}
    ensures r.body["name"] == Str(name) && r.body["priority"] == Str(priority)
    ensures r.body["date"] == Str(date) && r.body["time"] == Str(time)
    ensures collab ==> r.url == "/add_collab_task/" + JsText(listId)
    ensures !collab ==> r.url == "/add_task"
  {
    Request("POST", if collab then "/add_collab_task/" + JsText(listId) else "/add_task",
            map["name" := Str(name), "priority" := Str(priority), "date" := Str(date), "time" := Str(time)])
  }
}
