/**
 * The thermal-printer service: the logo it loads when it is built, and the
 * receipt page it lays out, one draw call after another, down a vertical
 * cursor that starts at the top margin.
 */
module ThermalPrinter {
  import opened Wrappers

  /** The settings file: the database location and the logo's image path. */
  datatype Config = Config(rutaDb: Option<string>, rutaImg: Option<string>)

  /**
   * What reading and deserialising the settings file gave: an exception from
   * either step, or the deserialised value (None for a JSON `null`).
   */
  datatype ConfigRead = ReadFailed | Deserialized(config: Option<Config>)

  /** An image loaded from a file: its path and its bytes. */
  datatype Image = Image(path: string, data: seq<bv8>)

  datatype Font = Font(family: string, size: int, bold: bool)

  const TitleFont: Font := Font("Arial", 14, true)
  const TextFont: Font := Font("Arial", 10, false)

  /** One drawing call on the page's graphics surface, in layout units. */
  datatype Draw =
    | DrawImage(image: Image, x: int, y: int, width: int, height: int)
    | DrawString(text: string, font: Font, x: int, y: int)

  /**
   * What printing did: the page the printer was sent, or the error message the
   * service writes to the console. The caller of the print call sees neither.
   */
  datatype PrintResult = Spooled(drawn: seq<Draw>) | PrintError

  const LogoSize: int := 120
  /** The space kept above the title, whether or not a logo is drawn there. */
  const LogoAdvance: int := 130
  const TitleAdvance: int := 30
  const LineAdvance: int := 20

  const Title: string := "Recibo de Pago"
  const Client: string := "Cliente: Juan Pérez"
  const Amount: string := "Monto pagado: $100.00"

  /** The settings as the service reads them: any failure gives no settings. */
  function LoadConfig(read: ConfigRead): Option<Config>
  {
    match read
    case ReadFailed => None
    case Deserialized(c) => c
  }

  /** The image path the service keeps: the settings' path, or none when there are no settings. */
  function ImagePath(config: Option<Config>): Option<string>
  {
    match config
    case None => None
    case Some(c) => c.rutaImg
  }

  /**
   * The page the service draws, stated with absolute positions: the logo, when
   * there is one, at the top-left margin corner, then the title and three
   * lines of text down the left margin.
   */
  function Receipt(logo: Option<Image>, left: int, top: int, today: string): (page: seq<Draw>)
    ensures |page| == if logo.Some? then 5 else 4
    ensures logo.Some? ==> page[0] == DrawImage(logo.value, left, top, LogoSize, LogoSize)
    ensures forall i | 0 <= i < |page| :: page[i].DrawImage? ==> i == 0 && logo.Some?
    ensures forall i | 0 <= i < |page| :: page[i].x == left
    ensures forall i, j | 0 <= i < j < |page| :: page[i].y < page[j].y
    ensures logo.Some? ==> page[0].y + page[0].height < page[1].y
    ensures page[|page| - 4..] == TextBlock(left, top, today)
  {
    var text := TextBlock(left, top, today);
    if logo.Some? then
      var page := [DrawImage(logo.value, left, top, LogoSize, LogoSize)] + text;
      assert forall i | 1 <= i < 5 :: page[i] == text[i - 1];
      page
    else
      text
  }

  /** The four text runs: title, date, client and amount, whatever the logo. */
  function TextBlock(left: int, top: int, today: string): (lines: seq<Draw>)
    ensures |lines| == 4
    ensures forall i | 0 <= i < 4 :: lines[i].DrawString? && lines[i].x == left
    ensures lines[0].y == top + LogoAdvance && lines[3].y == top + 200
    ensures forall i, j | 0 <= i < j < 4 :: lines[i].y < lines[j].y
  {
    [ DrawString(Title, TitleFont, left, top + 130),
      DrawString("Fecha: " + today, TextFont, left, top + 160),
      DrawString(Client, TextFont, left, top + 180),
      DrawString(Amount, TextFont, left, top + 200) ]
  }

  /** With or without a logo, the text runs of the page are the same. */
  lemma LogoDoesNotMoveText(img: Image, left: int, top: int, today: string)
    ensures Receipt(Some(img), left, top, today)[1..] == Receipt(None, left, top, today)
  {
  }

  class ThermalPrinterService {
    /** The logo's path as the settings gave it. */
    const rutaImg: Option<string>
    /** The logo, when one was loaded. */
    var logo: Option<Image>

    /**
     * Reads the settings and loads the logo. The file system is given as the
     * map from each existing file's path to its bytes.
     */
    constructor (read: ConfigRead, files: map<string, seq<bv8>>)
      ensures read.ReadFailed? || read == Deserialized(None) ==> rutaImg.None? && logo.None?
      ensures read.Deserialized? && read.config.Some? ==> rutaImg == read.config.value.rutaImg
      ensures logo.Some? <==> rutaImg.Some? && rutaImg.value != "" && rutaImg.value in files
      ensures logo.Some? ==> logo.value == Image(rutaImg.value, files[rutaImg.value])
    {
      var config := LoadConfig(read);
      var path := ImagePath(config);
      rutaImg := path;
      if path.Some? && path.value != "" && path.value in files {
        logo := Some(Image(path.value, files[path.value]));
      } else {
        logo := None;
      }
    }

    /**
     * The page handler: draws the logo when there is one, moves the cursor
     * past its space in either case, and draws one text run per line.
     */
    method PrintPage(left: int, top: int, today: string) returns (drawn: seq<Draw>, cursor: int)
      ensures drawn == Receipt(logo, left, top, today)
      ensures cursor == top + 220
    {
      cursor := top;
      drawn := [];
      if logo.Some? {
        drawn := drawn + [DrawImage(logo.value, left, cursor, LogoSize, LogoSize)];
      }
      cursor := cursor + LogoAdvance;
      drawn := drawn + [DrawString(Title, TitleFont, left, cursor)];
      cursor := cursor + TitleAdvance;
      drawn := drawn + [DrawString("Fecha: " + today, TextFont, left, cursor)];
      cursor := cursor + LineAdvance;
      drawn := drawn + [DrawString(Client, TextFont, left, cursor)];
      cursor := cursor + LineAdvance;
      drawn := drawn + [DrawString(Amount, TextFont, left, cursor)];
      cursor := cursor + LineAdvance;
    }

    /**
     * Prints one receipt: the spooler either takes the page or fails, and a
     * failure is reported as a result, never passed on to the caller.
     */
    method ImprimirRecibo(left: int, top: int, today: string, spoolerFails: bool)
      returns (result: PrintResult)
      ensures result.PrintError? <==> spoolerFails
      ensures result.Spooled? ==> result.drawn == Receipt(logo, left, top, today)
    {
      if spoolerFails {
        result := PrintError;
      } else {
        var drawn, _ := PrintPage(left, top, today);
        result := Spooled(drawn);
      }
    }
  }
}
