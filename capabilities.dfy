/**
 * The GetCapabilities document that `wfs_capabilities` in estaciones.py
 * returns: one f-string over three module constants. The model keeps the
 * template's text line for line (the f-string's lines, joined by newlines) and
 * proves what a WFS client reads from it: one feature type with the escaped
 * type name, the default SRS and a fixed bounding box, and the three operation
 * URLs built from the service's own base URL.
 */
module Capabilities {
  import opened Wrappers
  import opened XmlEscape

  const BaseUrl := "https://meteorologia.onrender.com/wfs"
  const SrsName := "EPSG:4326"
  const TypeName := "Estaciones"

  /** The operations advertised under `<Request>`, in document order. */
  const Operations := ["GetCapabilities", "DescribeFeatureType", "GetFeature"]

  /** The XML declaration, the root element's opening tag and the `<Service>` section. */
  const ServiceSection: seq<string> := [
    "<?xml version=\"1.0\" encoding=\"UTF-8\"?>",
    "<wfs:WFS_Capabilities xmlns:wfs=\"http://www.opengis.net/wfs\"",
    "                      xmlns:ogc=\"http://www.opengis.net/ogc\"",
    "                      xmlns:gml=\"http://www.opengis.net/gml\"",
    "                      xmlns:xsi=\"http://www.w3.org/2001/XMLSchema-instance\"",
    "                      xmlns:xlink=\"http://www.w3.org/1999/xlink\"",
    "                      version=\"1.1.0\"",
    "                      xsi:schemaLocation=\"http://www.opengis.net/wfs http://schemas.opengis.net/wfs/1.1.0/wfs.xsd\">",
    "    <Service>",
    "        <Name>WFS</Name>",
    "        <Title>WFS de Estaciones Agroclimáticas</Title>",
    "        <Abstract>Servicio WFS que proporciona datos climáticos en formato estándar.</Abstract>",
    "        <Keywords>Clima, Estaciones, WFS, Agroclimática</Keywords>",
    "        <Fees>NONE</Fees>",
    "        <AccessConstraints>NONE</AccessConstraints>",
    "    </Service>"
  ]

  /** The value of the `xlink:href` attribute for one operation, as the template writes it. */
  function Href(baseUrl: string, op: string): string {
    baseUrl + "?SERVICE=WFS&amp;REQUEST=" + op
  }

  function GetLine(baseUrl: string, op: string): string {
    "                        <Get xlink:href=\"" + Href(baseUrl, op) + "\"/>"
  }

  /** One operation element with its single HTTP GET binding. */
  function OperationLines(baseUrl: string, op: string): seq<string> {
    [
    "            <" + op + ">",
    "                <DCPType>",
    "                    <HTTP>",
      GetLine(baseUrl, op),
    "                    </HTTP>",
    "                </DCPType>",
      "            </" + op + ">"
    ]
  }

  const FeatureTypeOpen := "        <FeatureType>"
  const BoundingBoxLine := "            <LatLongBoundingBox minx=\"-70.0\" miny=\"-35.0\" maxx=\"-68.0\" maxy=\"-32.0\"/>"

  function NameLine(typeName: string): string {
    "            <Name>" + EscapeXml(Some(typeName)) + "</Name>"
  }

  function DefaultSrsLine(srsName: string): string {
    "            <DefaultSRS>" + EscapeXml(Some(srsName)) + "</DefaultSRS>"
  }

  function FeatureTypeListLines(typeName: string, srsName: string): seq<string> {
    [
      "    <FeatureTypeList>",
      FeatureTypeOpen,
      NameLine(typeName),
      "            <Title>Estaciones Agroclimáticas</Title>",
      "            <Abstract>Estaciones meteorológicas de Mendoza</Abstract>",
      DefaultSrsLine(srsName),
      BoundingBoxLine,
      "        </FeatureType>",
      "    </FeatureTypeList>"
    ]
  }

  /** The lines of the template with the three constants as parameters. */
  function CapabilitiesLines(baseUrl: string, typeName: string, srsName: string): seq<string> {
    ServiceSection
    + ["    <Capability>", "        <Request>"]
    + OperationLines(baseUrl, Operations[0])
    + OperationLines(baseUrl, Operations[1])
    + OperationLines(baseUrl, Operations[2])
    + ["        </Request>", "    </Capability>"]
    + FeatureTypeListLines(typeName, srsName)
    + ["</wfs:WFS_Capabilities>"]
  }

  /** Lines joined by a newline, as the lines of a triple-quoted string are. */
  function Join(lines: seq<string>): string {
    if lines == [] then ""
    else if |lines| == 1 then lines[0]
    else lines[0] + "\n" + Join(lines[1..])
  }

  /** The document `wfs_capabilities` returns. It takes no input, so every call returns the same text. */
  function WfsCapabilities(): string {
    Join(CapabilitiesLines(BaseUrl, TypeName, SrsName))
  }

  // ---------------------------------------------------------------------------
  // What the document advertises

  lemma FeatureTypeNotInServiceSection()
    ensures FeatureTypeOpen !in ServiceSection
  {
  }

  lemma FeatureTypeNotInOperation(baseUrl: string, op: string)
    requires |op| >= 8
    ensures FeatureTypeOpen !in OperationLines(baseUrl, op)
  {
    var lines := OperationLines(baseUrl, op);
    forall i | 0 <= i < |lines| ensures lines[i] != FeatureTypeOpen {
      assert |lines[i]| != |FeatureTypeOpen|;
    }
  }

  lemma FeatureTypeOnceInList(typeName: string, srsName: string)
    ensures multiset(FeatureTypeListLines(typeName, srsName))[FeatureTypeOpen] == 1
  {
    var list := FeatureTypeListLines(typeName, srsName);
    assert list == [list[0]] + [FeatureTypeOpen] + list[2..];
    forall i | 2 <= i < |list| ensures list[i] != FeatureTypeOpen {
      assert |list[i]| != |FeatureTypeOpen|;
    }
    assert FeatureTypeOpen !in list[2..];
  }

  lemma CountSplit<T>(pre: seq<T>, mid: seq<T>, post: seq<T>, x: T)
    requires x !in pre && x !in post
    ensures multiset(pre + mid + post)[x] == multiset(mid)[x]
  {
    assert multiset(pre + mid + post) == multiset(pre) + multiset(mid) + multiset(post);
  }

  /** The lines before the feature type list: the `<Service>` and `<Capability>` sections. */
  function ServiceAndCapability(baseUrl: string): seq<string> {
    ServiceSection
    + ["    <Capability>", "        <Request>"]
    + (OperationLines(baseUrl, Operations[0]) + OperationLines(baseUrl, Operations[1]) + OperationLines(baseUrl, Operations[2]))
    + ["        </Request>", "    </Capability>"]
  }

  /**
   * The document declares exactly one feature type: the `<FeatureType>` line
   * occurs once among all the lines.
   */
  lemma OneFeatureType(baseUrl: string, typeName: string, srsName: string)
    ensures multiset(CapabilitiesLines(baseUrl, typeName, srsName))[FeatureTypeOpen] == 1
  {
    LinesSplit(baseUrl, typeName, srsName);
    FeatureTypeOnceInList(typeName, srsName);
    FeatureTypeNotBeforeList(baseUrl);
    CountSplit(ServiceAndCapability(baseUrl), FeatureTypeListLines(typeName, srsName), ["</wfs:WFS_Capabilities>"], FeatureTypeOpen);
  }

  lemma LinesSplit(baseUrl: string, typeName: string, srsName: string)
    ensures CapabilitiesLines(baseUrl, typeName, srsName)
      == ServiceAndCapability(baseUrl) + FeatureTypeListLines(typeName, srsName) + ["</wfs:WFS_Capabilities>"]
    ensures |ServiceAndCapability(baseUrl)| == 41
  {
  }

  lemma FeatureTypeNotBeforeList(baseUrl: string)
    ensures FeatureTypeOpen !in ServiceAndCapability(baseUrl)
  {
    FeatureTypeNotInServiceSection();
    FeatureTypeNotInOperation(baseUrl, Operations[0]);
    FeatureTypeNotInOperation(baseUrl, Operations[1]);
    FeatureTypeNotInOperation(baseUrl, Operations[2]);
  }

  /**
   * The feature type's element: its name is the escaped type name, its
   * default SRS the escaped SRS name, and its bounding box the fixed
   * -70/-35/-68/-32.
   */
  lemma FeatureTypeContent(baseUrl: string, typeName: string, srsName: string)
    ensures var lines := CapabilitiesLines(baseUrl, typeName, srsName);
      && |lines| == 51
      && lines[42] == FeatureTypeOpen
      && lines[43] == "            <Name>" + Escape(typeName) + "</Name>"
      && lines[46] == "            <DefaultSRS>" + Escape(srsName) + "</DefaultSRS>"
      && lines[47] == BoundingBoxLine
      && lines[48] == "        </FeatureType>"
  {
    LinesSplit(baseUrl, typeName, srsName);
  }

  /**
   * The `<Request>` section lists GetCapabilities, DescribeFeatureType and
   * GetFeature in that order, each with a GET binding to
   * `baseUrl + "?SERVICE=WFS&amp;REQUEST=" + op`.
   */
  lemma OperationUrls(baseUrl: string, typeName: string, srsName: string)
    ensures var lines := CapabilitiesLines(baseUrl, typeName, srsName);
      && lines[18..25] == OperationLines(baseUrl, "GetCapabilities")
      && lines[25..32] == OperationLines(baseUrl, "DescribeFeatureType")
      && lines[32..39] == OperationLines(baseUrl, "GetFeature")
      && lines[21] == GetLine(baseUrl, "GetCapabilities")
      && lines[28] == GetLine(baseUrl, "DescribeFeatureType")
      && lines[35] == GetLine(baseUrl, "GetFeature")
  {
    OperationsSplit(baseUrl, typeName, srsName);
  }

  lemma OperationsSplit(baseUrl: string, typeName: string, srsName: string)
    ensures CapabilitiesLines(baseUrl, typeName, srsName)[18..39]
      == OperationLines(baseUrl, Operations[0]) + OperationLines(baseUrl, Operations[1]) + OperationLines(baseUrl, Operations[2])
  {
    var head := ServiceSection + ["    <Capability>", "        <Request>"];
    var ops := OperationLines(baseUrl, Operations[0]) + OperationLines(baseUrl, Operations[1]) + OperationLines(baseUrl, Operations[2]);
    assert |head| == 18 && |ops| == 21;
    assert CapabilitiesLines(baseUrl, typeName, srsName) == head + ops + CapabilitiesLines(baseUrl, typeName, srsName)[39..];
  }

  /** The URL a client requests for an operation once the attribute value is read back from XML. */
  function RequestUrl(baseUrl: string, op: string): string {
    baseUrl + "?SERVICE=WFS&REQUEST=" + op
  }

  /**
   * The template writes each operation URL already escaped: for a markup-free
   * base URL the attribute value is `escape(url)`, so an XML reader recovers
   * the URL itself.
   */
  lemma HrefIsEscapedUrl(baseUrl: string, op: string)
    requires NoMarkup(baseUrl) && NoMarkup(op)
    ensures Href(baseUrl, op) == Escape(RequestUrl(baseUrl, op))
    ensures Unescape(Href(baseUrl, op)) == RequestUrl(baseUrl, op)
  {
    var url := RequestUrl(baseUrl, op);
    var before, after := baseUrl + "?SERVICE=WFS", "REQUEST=" + op;
    assert url == before + "&" + after;
    assert Href(baseUrl, op) == before + "&amp;" + after;
    EscapeAroundAmpersand(before, after);
    UnescapeEscape(url);
  }

  /** `escape_xml` leaves both configured names as they are. */
  lemma ConstantsNeedNoEscaping(name: string)
    requires name == TypeName || name == SrsName
    ensures EscapeXml(Some(name)) == name
  {
    EscapeXmlIdentity(name);
  }

  // ---------------------------------------------------------------------------
  // From lines to text

  /** Where line `k` starts in `Join(lines)`. */
  function LineStart(lines: seq<string>, k: nat): nat
    requires k < |lines|
  {
    if k == 0 then 0 else |lines[0]| + 1 + LineStart(lines[1..], k - 1)
  }

  /** Each line appears in the joined text, at its own offset. */
  lemma {:induction false} LineInText(lines: seq<string>, k: nat)
    requires k < |lines|
    ensures LineStart(lines, k) + |lines[k]| <= |Join(lines)|
    ensures Join(lines)[LineStart(lines, k)..LineStart(lines, k) + |lines[k]|] == lines[k]
  {
    if k > 0 {
      LineInText(lines[1..], k - 1);
      var rest := Join(lines[1..]);
      var p := |lines[0]| + 1;
      assert Join(lines) == lines[0] + "\n" + rest;
      assert Join(lines)[p..] == rest;
    }
  }

  /**
   * The one feature type of the document served at `/wfs` (see
   * `OneFeatureType`) is named `Estaciones` and has default SRS `EPSG:4326`.
   */
  lemma ServedFeatureType(baseUrl: string, typeName: string, srsName: string)
    requires typeName == TypeName && srsName == SrsName
    ensures var lines := CapabilitiesLines(baseUrl, typeName, srsName);
      && lines[42] == FeatureTypeOpen
      && lines[43] == "            <Name>" + typeName + "</Name>"
      && lines[46] == "            <DefaultSRS>" + srsName + "</DefaultSRS>"
  {
    FeatureTypeContent(baseUrl, typeName, srsName);
    PlainConstant(typeName);
    PlainConstant(srsName);
  }

  /** The type name and the SRS name are left as they are by escaping. */
  lemma PlainConstant(name: string)
    requires name == TypeName || name == SrsName
    ensures Escape(name) == name
  {
    EscapePlain(name);
  }

  /**
   * Each operation of the served document is bound to a URL under the
   * service's own base URL, which an XML reader recovers unescaped.
   */
  lemma ServedOperations(baseUrl: string, typeName: string, srsName: string, op: string)
    requires baseUrl == BaseUrl && typeName == TypeName && srsName == SrsName
    requires op in Operations
    ensures GetLine(baseUrl, op) in CapabilitiesLines(baseUrl, typeName, srsName)
    ensures Unescape(Href(baseUrl, op)) == baseUrl + "?SERVICE=WFS&REQUEST=" + op
  {
    OperationUrls(baseUrl, typeName, srsName);
    PlainNames(op);
    HrefIsEscapedUrl(baseUrl, op);
  }

  /** Neither the base URL nor an operation name holds a character that escaping would rewrite. */
  lemma PlainNames(op: string)
    requires op in Operations
    ensures NoMarkup(BaseUrl) && NoMarkup(op)
  {
    PlainBaseUrl();
    if op == Operations[0] {
      assert NoMarkup(Operations[0]);
    } else if op == Operations[1] {
      assert NoMarkup(Operations[1]);
    } else {
      assert NoMarkup(Operations[2]);
    }
  }

  lemma PlainBaseUrl()
    ensures NoMarkup(BaseUrl)
  {
  }
}
