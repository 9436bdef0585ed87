/** java.util.StringJoiner: elements added one by one, rendered with a prefix, a delimiter and a suffix. */
module StringJoining {
  import opened Strings

  class StringJoiner {
    const delimiter: string
    const prefix: string
    const suffix: string
    var elements: seq<string>

    constructor (delimiter: string, prefix: string, suffix: string)
      ensures this.delimiter == delimiter && this.prefix == prefix && this.suffix == suffix
      ensures elements == []
    {
      this.delimiter := delimiter;
      this.prefix := prefix;
      this.suffix := suffix;
      elements := [];
    }

    method Add(s: string)
      modifies this`elements
      ensures elements == old(elements) + [s]
    {
      elements := elements + [s];
    }

    /**
      StringJoiner.toString. With no element added it yields the default
      empty value, which is prefix followed by suffix.
     */
    function ToString(): string
      reads this
    {
      Join(elements, delimiter, prefix, suffix)
    }
  }
}
