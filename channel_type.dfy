/**
 * The default channel type and the formatter base class of the Drupal 7
 * follow module: a type, a description and (for channel types) a visibility
 * flag, fixed at construction, and the label shown for a subscription.
 */
module ChannelTypes {
  import opened PhpValues

  /** The name a label starts with: the description, or the type when the description is null. */
  function LabelName(labelType: Value, description: Value): string {
    if description == Null then StringOf(labelType) else StringOf(description)
  }

  /** text is laid out as name, then " #", then the id as PHP prints it. */
  predicate LabelOf(text: string, name: string, id: Value) {
    |text| == |name| + 2 + |StringOf(id)| && text[..|name|] == name &&
    text[|name|..|name| + 2] == " #" && text[|name| + 2..] == StringOf(id)
  }

  /** A layout fixes the text: one name and id give one label. */
  lemma LabelOfUnique(s: string, t: string, name: string, id: Value)
    requires LabelOf(s, name, id) && LabelOf(t, name, id)
    ensures s == t
  {
    assert s == s[..|name|] + s[|name|..|name| + 2] + s[|name| + 2..];
    assert t == t[..|name|] + t[|name|..|name| + 2] + t[|name| + 2..];
  }

  /** The label of a subscription id under a type and a description. */
  function SubscriptionLabel(labelType: Value, description: Value, id: Value): (text: string)
    ensures LabelOf(text, LabelName(labelType, description), id)
  {
    LabelName(labelType, description) + " #" + StringOf(id)
  }

  /** Two strings with the same prefix are equal exactly when the rests are. */
  lemma SamePrefix(p: string, a: string, b: string)
    requires p + a == p + b
    ensures a == b
  {
    assert a == (p + a)[|p|..];
    assert b == (p + b)[|p|..];
  }

  /** Different integer ids get different labels under the same type and description. */
  lemma LabelsDistinguishIds(labelType: Value, description: Value, a: int, b: int)
    requires SubscriptionLabel(labelType, description, Int(a)) == SubscriptionLabel(labelType, description, Int(b))
    ensures a == b
  {
    var name := LabelName(labelType, description);
    assert name + " #" + IntToString(a) == (name + " #") + IntToString(a);
    assert name + " #" + IntToString(b) == (name + " #") + IntToString(b);
    SamePrefix(name + " #", IntToString(a), IntToString(b));
    IntToStringInjective(a, b);
  }

  /** DefaultChannelType: an immutable record. */
  datatype DefaultChannelType = DefaultChannelType(channelType: Value, description: Value, isVisible: Value)
  {
    /** getSubscriptionLabel(): the description, or the type, then " #" and the id. */
    function GetSubscriptionLabel(id: Value): (text: string)
      ensures LabelOf(text, if description == Null then StringOf(channelType) else StringOf(description), id)
    {
      SubscriptionLabel(channelType, description, id)
    }
  }

  /** The constructor; visibility defaults to true. */
  function NewChannelType(channelType: Value, description: Value, isVisible: Value := Bool(true)): (t: DefaultChannelType)
    ensures t.channelType == channelType && t.description == description && t.isVisible == isVisible
  {
    DefaultChannelType(channelType, description, isVisible)
  }

  /** AbstractFormatter: an immutable record of type and description. */
  datatype Formatter = Formatter(formatterType: Value, description: Value)
  {
    /** getSubscriptionLabel(): the description, or the type, then " #" and the id. */
    function GetSubscriptionLabel(id: Value): (text: string)
      ensures LabelOf(text, if description == Null then StringOf(formatterType) else StringOf(description), id)
    {
      SubscriptionLabel(formatterType, description, id)
    }
  }
}
