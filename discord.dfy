/**
 * The two pieces of the chat library bot.py touches: `discord.Embed`, which
 * it fills in place, and the interaction's response, which it sends once.
 */
module Discord {
  import opened Wrappers

  datatype Author = Author(name: string, iconUrl: string, url: string)

  datatype EmbedField = EmbedField(name: string, value: string)

  /** The content of an embed at one moment. */
  datatype Card = Card(
    title: Option<string>,
    description: Option<string>,
    color: int,
    author: Option<Author>,
    fields: seq<EmbedField>)

  /** What a command sends: plain text, or one embed. */
  datatype Reply = Text(content: string) | EmbedReply(card: Card)

  class Embed {
    var title: Option<string>
    var description: Option<string>
    var color: int
    var author: Option<Author>
    var fields: seq<EmbedField>

    function Snapshot(): Card
      reads this
    {
      Card(title, description, color, author, fields)
    }

    constructor (title: Option<string>, description: Option<string>, color: int)
      ensures Snapshot() == Card(title, description, color, None, [])
    {
      this.title := title;
      this.description := description;
      this.color := color;
      author := None;
      fields := [];
    }

    /** `set_author(name=…, icon_url=…, url=…)`: replaces the author strip only. */
    method SetAuthor(name: string, iconUrl: string, url: string)
      modifies this
      ensures Snapshot() == old(Snapshot()).(author := Some(Author(name, iconUrl, url)))
    {
      author := Some(Author(name, iconUrl, url));
    }

    /** `add_field(name=…, value=…)`: appends one field after the existing ones. */
    method AddField(name: string, value: string)
      modifies this
      ensures Snapshot() == old(Snapshot()).(fields := old(fields) + [EmbedField(name, value)])
    {
      fields := fields + [EmbedField(name, value)];
    }
  }

  /** `interaction.response`: an interaction is answered at most once. */
  class InteractionResponse {
    var sent: Option<Reply>

    constructor ()
      ensures sent == None
    {
      sent := None;
    }

    /** `send_message(content=…)` or `send_message(embed=…)`. */
    method SendMessage(reply: Reply)
      requires sent == None
      modifies this
      ensures sent == Some(reply)
    {
      sent := Some(reply);
    }
  }
}
