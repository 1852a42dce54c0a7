/** The PC agent's action record: a type tag, a parameter dictionary, and
    an optional thought and message; factories for each kind, and the
    conversions to and from dictionaries. */
module PcActions {
  import opened Util

  /** A field absent from a dictionary reads as `JNull` (Python's None). */
  datatype PCAction = PCAction(actionType: Json, params: Json, thought: Json, message: Json)

  function Click(x: int, y: int, button: string): (a: PCAction)
    ensures a.actionType == JStr("click") && a.thought == JNull && a.message == JNull
    ensures a.params == JObj(map["x" := JInt(x), "y" := JInt(y), "button" := JStr(button)])
  {
    PCAction(JStr("click"), JObj(map["x" := JInt(x), "y" := JInt(y), "button" := JStr(button)]), JNull, JNull)
  }

  function TypeText(text: string): (a: PCAction)
    ensures a.actionType == JStr("type") && a.params == JObj(map["text" := JStr(text)])
  {
    PCAction(JStr("type"), JObj(map["text" := JStr(text)]), JNull, JNull)
  }

  function StrList(s: seq<string>): (r: Json)
    ensures r.JArr? && |r.items| == |s| && forall i :: 0 <= i < |s| ==> r.items[i] == JStr(s[i])
  {
    if s == [] then JArr([]) else JArr([JStr(s[0])] + StrList(s[1..]).items)
  }

  /** Modifiers default to the empty list (also when given empty). */
  function PressKey(key: string, modifiers: Option<seq<string>>): (a: PCAction)
    ensures a.actionType == JStr("key") && a.params.JObj? && a.params.fields.Keys == {"key", "modifiers"}
    ensures a.params.fields["key"] == JStr(key)
    ensures modifiers.None? ==> a.params.fields["modifiers"] == JArr([])
    ensures modifiers.Some? ==> a.params.fields["modifiers"] == StrList(modifiers.value)
  {
    var mods := if modifiers.Some? && modifiers.value != [] then modifiers.value else [];
    PCAction(JStr("key"), JObj(map["key" := JStr(key), "modifiers" := StrList(mods)]), JNull, JNull)
  }

  function Scroll(clicks: int): (a: PCAction)
    ensures a.actionType == JStr("scroll") && a.params == JObj(map["clicks" := JInt(clicks)])
  {
    PCAction(JStr("scroll"), JObj(map["clicks" := JInt(clicks)]), JNull, JNull)
  }

  function MoveMouse(x: int, y: int): (a: PCAction)
    ensures a.actionType == JStr("move") && a.params == JObj(map["x" := JInt(x), "y" := JInt(y)])
  {
    PCAction(JStr("move"), JObj(map["x" := JInt(x), "y" := JInt(y)]), JNull, JNull)
  }

  function Finish(message: string): (a: PCAction)
    ensures a.actionType == JStr("finish") && a.params == JObj(map[]) && a.message == JStr(message)
  {
    PCAction(JStr("finish"), JObj(map[]), JNull, JStr(message))
  }

  const DefaultFinishMessage := "任务完成"

  /** Each factory produces its own tag, so no two kinds are confused. */
  lemma FactoryTagsDistinct(x: int, y: int, b: string, t: string, k: string, m: Option<seq<string>>, c: int, msg: string)
    ensures |{Click(x, y, b).actionType, TypeText(t).actionType, PressKey(k, m).actionType,
              Scroll(c).actionType, MoveMouse(x, y).actionType, Finish(msg).actionType}| == 6
  {
  }

  /** `from_dict`: a missing action type is "finish" and missing params are {}. */
  function FromDict(data: map<string, Json>): (a: PCAction)
    ensures a.actionType == (if "action_type" in data then data["action_type"] else JStr("finish"))
    ensures a.params == (if "params" in data then data["params"] else JObj(map[]))
    ensures a.thought == (if "thought" in data then data["thought"] else JNull)
    ensures a.message == (if "message" in data then data["message"] else JNull)
  {
    PCAction(Get(data, "action_type", JStr("finish")), Get(data, "params", JObj(map[])),
      Get(data, "thought", JNull), Get(data, "message", JNull))
  }

  function ToDict(a: PCAction): (d: map<string, Json>)
    ensures d.Keys == {"action_type", "params", "thought", "message"}
    ensures d["action_type"] == a.actionType && d["params"] == a.params
  {
    map["action_type" := a.actionType, "params" := a.params, "thought" := a.thought, "message" := a.message]
  }

  /** The dictionary form loses nothing. */
  lemma FromDictToDict(a: PCAction)
    ensures FromDict(ToDict(a)) == a
  {
  }

  /** A dictionary with all four keys survives the round trip the other way. */
  lemma ToDictFromDict(data: map<string, Json>)
    requires data.Keys == {"action_type", "params", "thought", "message"}
    ensures ToDict(FromDict(data)) == data
  {
  }

  /** `from_model_response`: the decoded JSON object (Err carries the text
      of the decoding or lookup error) becomes an action; a failure becomes
      a finish action reporting the error. */
  function FromModelResponse(decoded: Result<map<string, Json>>): (a: PCAction)
    ensures decoded.Ok? ==> a == FromDict(decoded.value)
    ensures decoded.Err? ==> a == Finish("解析错误: " + decoded.msg)
  {
    match decoded
    case Ok(data) => FromDict(data)
    case Err(e) => Finish("解析错误: " + e)
  }
}
