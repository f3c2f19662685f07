/** net/http's Header type, as far as the handler reads and writes it. */
module Headers {

  /** Each (canonical) header name maps to its values, in the order added. */
  type Header = map<string, seq<string>>

  /** Header.Get: the first value stored under `key`, or "" when there is none. */
  function Get(h: Header, key: string): string
  {
    if key in h && |h[key]| > 0 then h[key][0] else ""
  }

  /** Header.Add: appends `value` to the values of `key`, keeping the others. */
  function Add(h: Header, key: string, value: string): (h': Header)
    ensures h'.Keys == h.Keys + {key}
    ensures forall k :: k in h && k != key ==> h'[k] == h[k]
    ensures key in h ==> h'[key] == h[key] + [value]
    ensures key !in h ==> h'[key] == [value]
  {
    h[key := (if key in h then h[key] else []) + [value]]
  }

  /** Get after Add: the added value is what Get returns when the key had no
      value yet, and every other key reads as before. */
  lemma GetAfterAdd(h: Header, key: string, value: string, other: string)
    ensures Get(Add(h, key, value), key) == (if key in h && |h[key]| > 0 then h[key][0] else value)
    ensures other != key ==> Get(Add(h, key, value), other) == Get(h, other)
  {
  }
}
