/** What a page sends, and what it does with any received text, said in terms of the fields of the texts. */
module PageTexts {
  import opened Jansson
  import opened ReceivedTexts
  import opened ChatClient

  /** The two texts that a page sends: a request with the identifier 42, and a notification. */
  lemma SentTexts(s: string)
    ensures
      var name := SetNameMessage(s);
      && name == Object(map["method" := String("set_name"), "params" := Array([String(s)]), "id" := Integer(42)])
      && IsRequest(name.fields, "set_name", Array([String(s)]), 42)
    ensures
      var line := ChatMessage(s);
      && line == Object(map["method" := String("chat"), "params" := Array([String(s)])])
      && IsNotice(line.fields, "chat", Array([String(s)]))
  {
  }

  /** What JavaScript takes for false. */
  predicate Falsy(value: Json) {
    value == Null || value == Bool(false) || value == Integer(0) || value == Real(0.0) || value == String("")
  }

  function Nth(items: seq<Json>, i: nat): Option<Json> {
    if i < |items| then Some(items[i]) else None
  }

  function Letter(s: string, i: nat): Option<Json> {
    if i < |s| then Some(String([s[i]])) else None
  }

  /** A text with a string for a method is a notification, whatever else it has. One of the two known kinds shows the
      first two things that its params iterate over; all else shows nothing. */
  lemma NoticeShown(fields: map<string, Json>, name: string)
    requires "method" in fields && fields["method"] == String(name)
    ensures
      var shown := Show(Some(Object(fields)));
      if "params" in fields && fields["params"].Array? && name == "message" then
        shown == Some(ChatLine(Nth(fields["params"].items, 0), Nth(fields["params"].items, 1)))
      else if "params" in fields && fields["params"].Array? && name == "announce" then
        shown == Some(AnnouncementLine(Nth(fields["params"].items, 0), Nth(fields["params"].items, 1)))
      else if "params" in fields && fields["params"].String? && name == "message" then
        shown == Some(ChatLine(Letter(fields["params"].s, 0), Letter(fields["params"].s, 1)))
      else if "params" in fields && fields["params"].String? && name == "announce" then
        shown == Some(AnnouncementLine(Letter(fields["params"].s, 0), Letter(fields["params"].s, 1)))
      else
        shown == None
  {
  }

  /** Any other object shows something only if it has the identifier 42 and an error that is not falsy: the message of
      the error, or a text of its own if there is none. */
  lemma AnswerShown(fields: map<string, Json>)
    requires !("method" in fields && fields["method"].String?)
    ensures
      var shown := Show(Some(Object(fields)));
      if "id" in fields && (fields["id"] == Integer(42) || fields["id"] == Real(42.0))
         && "error" in fields && !Falsy(fields["error"]) then
        var error := fields["error"];
        if error.Object? && "message" in error.fields && !Falsy(error.fields["message"])
        then shown == Some(ErrorLine(error.fields["message"]))
        else shown == Some(ErrorLine(String("failed to set nickname")))
      else
        shown == None
  {
  }

  /** What does not parse, or is no object, shows nothing. */
  lemma NothingShown(text: Option<Json>)
    requires text.None? || !text.value.Object?
    ensures Show(text) == None
  {
  }
}
