/** The parts of a Discord message (discordgo's `MessageSend` and `MessageEmbed`) the relay fills in. */
module Discord {
  import opened Wrappers

  datatype Field = Field(name: string, value: string, inline: bool)

  datatype Footer = Footer(text: string, iconUrl: string)

  datatype Author = Author(name: string, url: string, iconUrl: string)

  /** `footer` and `author` may be nil in discordgo: None stands for nil. */
  datatype Embed = Embed(
    title: string,
    description: string,
    url: string,
    color: int,
    timestamp: string,
    fields: seq<Field>,
    footer: Option<Footer>,
    author: Option<Author>)

  datatype MessageSend = MessageSend(content: string, embeds: seq<Embed>)

  /** A message holding exactly one embed, as every formatter returns. */
  function OneEmbed(e: Embed): (m: MessageSend)
    ensures |m.embeds| == 1 && m.embeds[0] == e && m.content == ""
  {
    MessageSend("", [e])
  }

  /** A message with plain text content and no embed. */
  function PlainText(content: string): (m: MessageSend)
    ensures m.embeds == [] && m.content == content
  {
    MessageSend(content, [])
  }

  /** Field names of an embed, in order. */
  function FieldNames(fields: seq<Field>): (names: seq<string>)
    ensures |names| == |fields|
    ensures forall i :: 0 <= i < |fields| ==> names[i] == fields[i].name
  {
    if fields == [] then [] else [fields[0].name] + FieldNames(fields[1..])
  }
}
