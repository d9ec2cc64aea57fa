/** The map that holds inputs and outputs. */
module KeyValue {
  import opened Wrappers

  /** What a configuration holds: nested maps and lists over plain values. */
  datatype Json = Object(fields: map<string, Json>) | List(items: seq<Json>) | Plain(text: string)

  /** A deep copy, built entry by entry, is equal to the original. */
  method Copy(v: Json) returns (r: Json)
    ensures r == v
    decreases v
  {
    match v {
      case Object(fields) =>
        var m: map<string, Json> := map[];
        var todo := fields.Keys;
        while todo != {}
          invariant todo <= fields.Keys && m == map k | k in fields && k !in todo :: fields[k]
          decreases todo
        {
          var k :| k in todo;
          todo := todo - {k};
          var c := Copy(fields[k]);
          m := m[k := c];
        }
        assert m == fields;
        r := Object(m);
      case List(items) =>
        var l: seq<Json> := [];
        for i := 0 to |items|
          invariant l == items[..i]
        {
          var c := Copy(items[i]);
          l := l + [c];
        }
        r := List(l);
      case Plain(_) =>
        r := v;
    }
  }

  class Kv {
    var d: map<string, Json>

    constructor ()
      ensures d == map[]
    {
      d := map[];
    }

    /** A deep copy of all entries. */
    method Get() returns (r: map<string, Json>)
      ensures r == d
    {
      r := map[];
      var todo := d.Keys;
      while todo != {}
        invariant todo <= d.Keys && r == map k | k in d && k !in todo :: d[k]
        decreases todo
      {
        var k :| k in todo;
        todo := todo - {k};
        var c := Copy(d[k]);
        r := r[k := c];
      }
      assert r == d;
    }

    /** The entries of o replace those of the same name, whatever the order they are visited in. */
    method Add(o: Kv)
      requires o != this
      modifies this
      ensures d == old(d) + o.d
    {
      var e := o.Get();
      var todo := e.Keys;
      while todo != {}
        invariant todo <= e.Keys && d == old(d) + map k | k in e && k !in todo :: e[k]
        decreases todo
      {
        var k :| k in todo;
        todo := todo - {k};
        d := d[k := e[k]];
      }
      assert e == map k | k in e && k !in {} :: e[k];
    }

    method GetValue(k: string) returns (v: Option<Json>)
      ensures v == if k in d then Some(d[k]) else None
    {
      v := if k in d then Some(d[k]) else None;
    }
  }
}
