/**
 * Notification: a message whose contents follow the notification envelope,
 * an array holding the source id under 'i', the data under 'd' and,
 * optionally, an already formatted rendering under 'f'. The rendering is
 * computed by the formatter registered for the message's type on first
 * request and kept afterwards.
 */
module Notifications {
  import opened PhpValues

  /** The notification levels. */
  const LevelInfo: int := 0
  const LevelNotice: int := 1
  const LevelWarning: int := 10

  /** What a notification reads from its message. */
  datatype MessageView = MessageView(id: Value, msgType: Value, level: Value, contents: Value)

  /** What the constructor extracts from the contents. */
  datatype Envelope = Envelope(valid: bool, data: Value, sourceId: Value, formatted: Value)

  /**
   * The constructor's extraction: the contents are valid when they are a
   * truthy array with 'i' and 'd' set; then data and source id are taken
   * from them, and 'f', when set, is the formatted rendering. Invalid
   * contents leave everything null. Being a non-empty array, which the
   * truthiness test adds, already follows from 'i' being set, so validity
   * depends on the two keys alone.
   */
  function Extract(contents: Value): (e: Envelope)
    ensures e.valid <==> IsSet(contents, "i") && IsSet(contents, "d")
    ensures !e.valid ==> e == Envelope(false, Null, Null, Null)
    ensures e.valid ==> (e.data == Index(contents, "d") && e.sourceId == Index(contents, "i") &&
      e.formatted == Index(contents, "f"))
  {
    assert IsSet(contents, "i") ==> "i" in contents.entries && |contents.entries| > 0;
    if Truthy(contents) && contents.Arr? && IsSet(contents, "i") && IsSet(contents, "d") then
      Envelope(true, contents.entries["d"], contents.entries["i"],
               if IsSet(contents, "f") then contents.entries["f"] else Null)
    else Envelope(false, Null, Null, Null)
  }

  /** The envelope a sender writes: source id, data and, when given, the rendering. */
  function Wrap(sourceId: Value, data: Value, formatted: Value): (c: Value)
    ensures c.Arr?
  {
    var base := map["i" := sourceId, "d" := data];
    Arr(if formatted == Null then base else base["f" := formatted])
  }

  /** Wrapping and extracting give back what was wrapped, as long as source id and data are not null. */
  lemma ExtractWrap(sourceId: Value, data: Value, formatted: Value)
    requires sourceId != Null && data != Null
    ensures Extract(Wrap(sourceId, data, formatted)) == Envelope(true, data, sourceId, formatted)
  {
    var c := Wrap(sourceId, data, formatted);
    assert IsSet(c, "i") && IsSet(c, "d");
  }

  /** get($key): data[key] when data is an array holding key with a non-null value, otherwise null. */
  function Get(data: Value, key: string): (r: Value)
    ensures r != Null <==> IsSet(data, key)
  {
    if data.Arr? then (if IsSet(data, key) then data.entries[key] else Null) else Null
  }

  /** get() reads the same as a plain PHP index, a missing key reading null. */
  lemma GetIsIndex(data: Value, key: string)
    ensures Get(data, key) == Index(data, key)
  {
  }

  class Notification {
    const message: MessageView
    const valid: bool
    const data: Value
    const sourceId: Value
    /** The kept rendering, null until there is one. */
    var formatted: Value
    /** How often the formatter has been asked. */
    ghost var formatterCalls: nat

    /** The constructor: the envelope is extracted from the message's contents. */
    constructor(message: MessageView)
      ensures this.message == message && formatterCalls == 0
      ensures Envelope(valid, data, sourceId, formatted) == Extract(message.contents)
    {
      var contents := message.contents;
      this.message := message;
      if Truthy(contents) && contents.Arr? && IsSet(contents, "i") && IsSet(contents, "d") {
        valid := true;
        data := contents.entries["d"];
        sourceId := contents.entries["i"];
        formatted := if IsSet(contents, "f") then contents.entries["f"] else Null;
      } else {
        valid := false;
        data := Null;
        sourceId := Null;
        formatted := Null;
      }
      formatterCalls := 0;
    }

    /**
     * format(): the kept rendering when there is one; otherwise the
     * formatter is asked (rendered is what it returns for this
     * notification) and its answer kept. A null answer is not kept, so the
     * formatter is asked again next time.
     */
    method Format(rendered: Value) returns (r: Value)
      modifies this`formatted, this`formatterCalls
      ensures old(formatted) != Null ==> (r == old(formatted) && formatted == old(formatted) &&
        formatterCalls == old(formatterCalls))
      ensures old(formatted) == Null ==> (r == rendered && formatted == rendered &&
        formatterCalls == old(formatterCalls) + 1)
    {
      if formatted == Null {
        formatted := rendered;
        formatterCalls := formatterCalls + 1;
      }
      r := formatted;
    }
  }

  /**
   * A notification created with a rendering under 'f' never asks the
   * formatter; otherwise it asks once, and a non-null answer is returned
   * again on the next call.
   */
  method FormatTwice(message: MessageView, first: Value, second: Value) returns (a: Value, b: Value)
    ensures IsSet(message.contents, "f") && Extract(message.contents).valid ==>
      a == b == message.contents.entries["f"]
    ensures first != Null ==> a == b
  {
    var n := new Notification(message);
    a := n.Format(first);
    b := n.Format(second);
  }
}
