/**
 * The engine event the decoder works on (`base::Event`), as an object whose
 * document is updated in place by the setters the decoder calls.
 */
module BaseEvent {
  import opened Util
  import opened JsonModel

  class Event {
    /** The event's document: every existing path with its value. */
    var fields: Document
    /**
     * How the event serialises the value at an existing path, given the
     * whole document (the text itself is not modelled further).
     */
    const str: (Document, string) -> string

    constructor(doc: Document, str: (Document, string) -> string)
      ensures fields == doc && this.str == str
    {
      fields := doc;
      this.str := str;
    }

    /** `str(path)`: the serialisation of the value at `path`, when it exists. */
    function Str(path: string): (r: Option<string>)
      reads this
      ensures r.Some? <==> path in fields
    {
      if path in fields then Some(str(fields, path)) else None
    }

    /** `set(to, from)`: copy the value at `from` to `to`. */
    method Set(to: string, from: string)
      requires from in fields
      modifies this
      ensures fields == old(fields)[to := old(fields)[from]]
    {
      fields := fields[to := fields[from]];
    }

    method SetString(s: string, to: string)
      modifies this
      ensures fields == old(fields)[to := JString(s)]
    {
      fields := fields[to := JString(s)];
    }

    /** `setArray(to)`: an empty array at `to`. */
    method SetArray(to: string)
      modifies this
      ensures fields == old(fields)[to := JArray([])]
    {
      fields := fields[to := JArray([])];
    }

    /** `appendString(s, to)`: `s` added at the end of the array at `to`. */
    method AppendString(s: string, to: string)
      requires to in fields && fields[to].JArray?
      modifies this
      ensures fields == old(fields)[to := JArray(old(fields)[to].items + [JString(s)])]
    {
      fields := fields[to := JArray(fields[to].items + [JString(s)])];
    }

    method SetBool(b: bool, to: string)
      modifies this
      ensures fields == old(fields)[to := JBool(b)]
    {
      fields := fields[to := JBool(b)];
    }
  }
}
