/** render_png of cartography/png.py: a scene drawn into pixels, then framed as a PNG datastream. */
module PngExport {
  import opened Wrappers
  import opened Arithmetic
  import opened Bytes
  import opened Raster

  // Coordinates and sizes are the integers left after the source's int() conversions.
  datatype NodeBox = NodeBox(x: int, y: int, width: int, height: int, accent: (byte, byte, byte))
  datatype Scene = Scene(width: int, height: int, edges: seq<seq<Point>>, nodes: seq<NodeBox>, metadata: seq<byte>)

  datatype RenderError = ScaleOutOfRange | FieldOverflow

  // The zlib and CRC-32 routines the file format relies on, as functions.
  datatype Codec = Codec(
    compress: seq<byte> -> seq<byte>, inflate: seq<byte> -> Option<seq<byte>>, crc: seq<byte> -> u32)

  ghost predicate Lossless(codec: Codec) {
    forall s :: codec.inflate(codec.compress(s)) == Some(s)
  }

  const BACKGROUND := Color(7, 16, 24, 255)
  const EDGE_COLOR := Color(101, 123, 145, 255)
  const NODE_FILL := Color(13, 26, 37, 255)
  const ACCENT_WIDTH := 6

  // ----- the picture a scene describes -----

  function Scaled(p: Point, scale: int): Point {
    Point(p.x * scale, p.y * scale)
  }

  /** One line per pair of consecutive points. */
  function PolylinePrimitives(points: seq<Point>, scale: int): seq<Primitive> {
    if |points| < 2 then []
    else
      var n := |points|;
      PolylinePrimitives(points[..n - 1], scale)
      + [Primitive(Line(Scaled(points[n - 2], scale), Scaled(points[n - 1], scale)), EDGE_COLOR)]
  }

  function EdgePrimitives(edges: seq<seq<Point>>, scale: int): seq<Primitive> {
    if edges == [] then []
    else EdgePrimitives(edges[..|edges| - 1], scale) + PolylinePrimitives(edges[|edges| - 1], scale)
  }

  function AccentColor(n: NodeBox): Color {
    Color(n.accent.0, n.accent.1, n.accent.2, 255)
  }

  function NodePrimitives(n: NodeBox, scale: int): seq<Primitive> {
    BoxPrimitives(n.x * scale, n.y * scale, n.width * scale, n.height * scale, NODE_FILL, AccentColor(n))
    + BoxPrimitives(n.x * scale, n.y * scale, ACCENT_WIDTH * scale, n.height * scale, AccentColor(n), AccentColor(n))
  }

  function NodesPrimitives(nodes: seq<NodeBox>, scale: int): seq<Primitive> {
    if nodes == [] then []
    else NodesPrimitives(nodes[..|nodes| - 1], scale) + NodePrimitives(nodes[|nodes| - 1], scale)
  }

  /** Everything a scene draws, edges under nodes, in painting order. */
  function ScenePrimitives(scene: Scene, scale: int): seq<Primitive> {
    EdgePrimitives(scene.edges, scale) + NodesPrimitives(scene.nodes, scale)
  }

  // ----- the same picture, pixel by pixel -----

  /** (x, y) is on the outline of the box with these corner pixels, in whichever order the corners come. */
  ghost predicate OnOutline(left: int, top: int, right: int, bottom: int, x: int, y: int) {
    || ((y == top || y == bottom) && Min(left, right) <= x <= Max(left, right))
    || ((x == left || x == right) && Min(top, bottom) <= y <= Max(top, bottom))
  }

  ghost predicate Inside(left: int, top: int, right: int, bottom: int, x: int, y: int) {
    left <= x <= right && top <= y <= bottom
  }

  /** What a node shows at (x, y): its accent on its outline and in the bar at its left, else its fill. */
  ghost function NodeLook(n: NodeBox, scale: int, x: int, y: int): Option<Color> {
    var left, top := n.x * scale, n.y * scale;
    var right, bottom := left + n.width * scale - 1, top + n.height * scale - 1;
    var barEnd := left + 6 * scale - 1;
    if OnOutline(left, top, right, bottom, x, y) || OnOutline(left, top, barEnd, bottom, x, y)
       || Inside(left, top, barEnd, bottom, x, y)
    then Some(Color(n.accent.0, n.accent.1, n.accent.2, 255))
    else if Inside(left, top, right, bottom, x, y) then Some(Color(13, 26, 37, 255))
    else None
  }

  ghost predicate OnPolyline(points: seq<Point>, scale: int, x: int, y: int) {
    exists i | 0 <= i < |points| - 1 :: Covers(Line(Scaled(points[i], scale), Scaled(points[i + 1], scale)), x, y)
  }

  ghost predicate OnEdge(edges: seq<seq<Point>>, scale: int, x: int, y: int) {
    exists e | 0 <= e < |edges| :: OnPolyline(edges[e], scale, x, y)
  }

  /** The colour of a scene at (x, y): that of the last node there, else of the edges, else of the background. */
  ghost predicate SeenAt(scene: Scene, scale: int, x: int, y: int, c: Color) {
    && (forall i | 0 <= i < |scene.nodes| && NodeLook(scene.nodes[i], scale, x, y).Some?
                   && (forall j | i < j < |scene.nodes| :: NodeLook(scene.nodes[j], scale, x, y).None?) ::
          c == NodeLook(scene.nodes[i], scale, x, y).value)
    && ((forall i | 0 <= i < |scene.nodes| :: NodeLook(scene.nodes[i], scale, x, y).None?) ==>
          c == if OnEdge(scene.edges, scale, x, y) then Color(101, 123, 145, 255) else Color(7, 16, 24, 255))
  }

  lemma BoxLook(x: int, y: int, w: int, h: int, fill: Color, stroke: Color, under: Color, px: int, py: int)
    ensures Look(BoxPrimitives(x, y, w, h, fill, stroke), under, px, py) ==
            if OnOutline(x, y, x + w - 1, y + h - 1, px, py) then stroke
            else if Inside(x, y, x + w - 1, y + h - 1, px, py) then fill else under
  {
    var nw, ne := Point(x, y), Point(x + w - 1, y);
    var sw, se := Point(x, y + h - 1), Point(x + w - 1, y + h - 1);
    StraightLine(nw, ne, px, py);
    StraightLine(sw, se, px, py);
    StraightLine(nw, sw, px, py);
    StraightLine(ne, se, px, py);
    hide Line, Look;
    var a, b := [Primitive(Box(x, y, x + w, y + h), fill)], [Primitive(Line(nw, ne), stroke)];
    var c, d, e := [Primitive(Line(sw, se), stroke)], [Primitive(Line(nw, sw), stroke)],
      [Primitive(Line(ne, se), stroke)];
    LookSingle(Box(x, y, x + w, y + h), fill, under, px, py);
    LookAppend(a, b, under, px, py);
    LookSingle(Line(nw, ne), stroke, Look(a, under, px, py), px, py);
    LookAppend(a + b, c, under, px, py);
    LookSingle(Line(sw, se), stroke, Look(a + b, under, px, py), px, py);
    LookAppend(a + b + c, d, under, px, py);
    LookSingle(Line(nw, sw), stroke, Look(a + b + c, under, px, py), px, py);
    LookAppend(a + b + c + d, e, under, px, py);
    LookSingle(Line(ne, se), stroke, Look(a + b + c + d, under, px, py), px, py);
  }

  lemma NodeShows(n: NodeBox, scale: int, under: Color, x: int, y: int)
    ensures Look(NodePrimitives(n, scale), under, x, y) ==
            match NodeLook(n, scale, x, y) case Some(c) => c case None => under
  {
    hide Look, BoxPrimitives, OnOutline, Inside;
    var left, top, w, h := n.x * scale, n.y * scale, n.width * scale, n.height * scale;
    var box := BoxPrimitives(left, top, w, h, NODE_FILL, AccentColor(n));
    var bar := BoxPrimitives(left, top, ACCENT_WIDTH * scale, h, AccentColor(n), AccentColor(n));
    LookAppend(box, bar, under, x, y);
    BoxLook(left, top, w, h, NODE_FILL, AccentColor(n), under, x, y);
    BoxLook(left, top, ACCENT_WIDTH * scale, h, AccentColor(n), AccentColor(n), Look(box, under, x, y), x, y);
  }

  lemma {:induction false} NodesShow(nodes: seq<NodeBox>, scale: int, under: Color, x: int, y: int)
    ensures forall i | 0 <= i < |nodes| && NodeLook(nodes[i], scale, x, y).Some?
                       && (forall j | i < j < |nodes| :: NodeLook(nodes[j], scale, x, y).None?) ::
              Look(NodesPrimitives(nodes, scale), under, x, y) == NodeLook(nodes[i], scale, x, y).value
    ensures (forall i | 0 <= i < |nodes| :: NodeLook(nodes[i], scale, x, y).None?) ==>
              Look(NodesPrimitives(nodes, scale), under, x, y) == under
  {
    hide NodeLook, Look;
    if nodes != [] {
      var n := |nodes| - 1;
      NodesShow(nodes[..n], scale, under, x, y);
      LookAppend(NodesPrimitives(nodes[..n], scale), NodePrimitives(nodes[n], scale), under, x, y);
      NodeShows(nodes[n], scale, Look(NodesPrimitives(nodes[..n], scale), under, x, y), x, y);
    } else {
      LookNothing(under, x, y);
    }
  }

  lemma LookNothing(under: Color, x: int, y: int)
    ensures Look([], under, x, y) == under
  {
  }

  lemma {:induction false} PolylineShows(points: seq<Point>, scale: int, under: Color, x: int, y: int)
    ensures Look(PolylinePrimitives(points, scale), under, x, y) ==
            if OnPolyline(points, scale, x, y) then EDGE_COLOR else under
  {
    hide Covers, Line;
    if |points| >= 2 {
      var n := |points|;
      var before := points[..n - 1];
      PolylineShows(before, scale, under, x, y);
      var segment := Line(Scaled(points[n - 2], scale), Scaled(points[n - 1], scale));
      LookAppend(PolylinePrimitives(before, scale), [Primitive(segment, EDGE_COLOR)], under, x, y);
      LookSingle(segment, EDGE_COLOR, Look(PolylinePrimitives(before, scale), under, x, y), x, y);
      assert forall i | 0 <= i < n - 1 :: before[i] == points[i];
      if Covers(segment, x, y) {
        assert Covers(Line(Scaled(points[n - 2], scale), Scaled(points[n - 2 + 1], scale)), x, y);
      }
      assert OnPolyline(points, scale, x, y) <==> OnPolyline(before, scale, x, y) || Covers(segment, x, y);
    }
  }

  lemma {:induction false} EdgesShow(edges: seq<seq<Point>>, scale: int, under: Color, x: int, y: int)
    ensures Look(EdgePrimitives(edges, scale), under, x, y) ==
            if OnEdge(edges, scale, x, y) then EDGE_COLOR else under
  {
    hide OnPolyline, PolylinePrimitives, Look;
    if edges != [] {
      var n := |edges| - 1;
      EdgesShow(edges[..n], scale, under, x, y);
      LookAppend(EdgePrimitives(edges[..n], scale), PolylinePrimitives(edges[n], scale), under, x, y);
      PolylineShows(edges[n], scale, Look(EdgePrimitives(edges[..n], scale), under, x, y), x, y);
      assert OnEdge(edges, scale, x, y) <==> OnEdge(edges[..n], scale, x, y) || OnPolyline(edges[n], scale, x, y);
    } else {
      LookNothing(under, x, y);
    }
  }

  /** Painting the primitives in order shows the last node at each pixel, over the edges, over the background. */
  lemma PictureOfScene(scene: Scene, scale: int, x: int, y: int)
    ensures SeenAt(scene, scale, x, y, Look(ScenePrimitives(scene, scale), BACKGROUND, x, y))
  {
    hide NodeLook, OnEdge, Look;
    var edged := Look(EdgePrimitives(scene.edges, scale), BACKGROUND, x, y);
    LookAppend(EdgePrimitives(scene.edges, scale), NodesPrimitives(scene.nodes, scale), BACKGROUND, x, y);
    EdgesShow(scene.edges, scale, BACKGROUND, x, y);
    NodesShow(scene.nodes, scale, edged, x, y);
  }

  /** The pixels are the scene's picture. */
  ghost predicate Depicts(pixels: seq<byte>, width: nat, height: nat, scene: Scene, scale: int) {
    && Framed(pixels, width, height)
    && forall x, y | InCanvas(width, height, x, y) ::
         SeenAt(scene, scale, x, y, PixelAt(pixels, width, height, x, y))
  }

  lemma {:induction false} LastNodeAt(nodes: seq<NodeBox>, scale: int, x: int, y: int)
    ensures (forall i | 0 <= i < |nodes| :: NodeLook(nodes[i], scale, x, y).None?)
            || exists i | 0 <= i < |nodes| ::
                 NodeLook(nodes[i], scale, x, y).Some?
                 && forall j | i < j < |nodes| :: NodeLook(nodes[j], scale, x, y).None?
  {
    hide NodeLook;
    if nodes != [] {
      var n := |nodes| - 1;
      if NodeLook(nodes[n], scale, x, y).None? {
        LastNodeAt(nodes[..n], scale, x, y);
        assert forall i | 0 <= i < n :: nodes[..n][i] == nodes[i];
      }
    }
  }

  /** A scene has one picture: every pixel's colour is determined. */
  lemma OnePicture(a: seq<byte>, b: seq<byte>, width: nat, height: nat, scene: Scene, scale: int)
    requires Depicts(a, width, height, scene, scale) && Depicts(b, width, height, scene, scale)
    ensures a == b
  {
    hide NodeLook, OnEdge, PixelAt;
    forall x, y | InCanvas(width, height, x, y)
      ensures PixelAt(a, width, height, x, y) == PixelAt(b, width, height, x, y)
    {
      LastNodeAt(scene.nodes, scale, x, y);
      assert SeenAt(scene, scale, x, y, PixelAt(a, width, height, x, y));
      assert SeenAt(scene, scale, x, y, PixelAt(b, width, height, x, y));
    }
    PixelsDetermineBuffer(a, b, width, height);
  }

  // ----- drawing -----

  method DrawEdge(buf: array<byte>, width: nat, height: nat, points: seq<Point>, scale: int)
    requires Framed(buf[..], width, height)
    modifies buf
    ensures Shows(old(buf[..]), buf[..], width, height, PolylinePrimitives(points, scale))
  {
    var i := 1;
    while i < |points|
      invariant 1 <= i && (i <= |points| || i == 1)
      invariant Shows(old(buf[..]), buf[..], width, height, PolylinePrimitives(points[..Min(i, |points|)], scale))
    {
      var before := buf[..];
      DrawLine(buf, width, height, points[i - 1].x * scale, points[i - 1].y * scale,
               points[i].x * scale, points[i].y * scale, EDGE_COLOR);
      ghost var segment := Primitive(Line(Scaled(points[i - 1], scale), Scaled(points[i], scale)), EDGE_COLOR);
      ShowsThen(old(buf[..]), before, buf[..], width, height, PolylinePrimitives(points[..i], scale), [segment]);
      assert points[..i + 1][..i] == points[..i];
      i := i + 1;
    }
    assert points[..Min(i, |points|)] == points;
  }

  method DrawNode(buf: array<byte>, width: nat, height: nat, node: NodeBox, scale: int)
    requires Framed(buf[..], width, height)
    modifies buf
    ensures Shows(old(buf[..]), buf[..], width, height, NodePrimitives(node, scale))
  {
    var rgb := node.accent;
    DrawRect(buf, width, height, node.x * scale, node.y * scale, node.width * scale, node.height * scale,
             NODE_FILL, Color(rgb.0, rgb.1, rgb.2, 255));
    ghost var between := buf[..];
    var accentWidth := 6 * scale;
    DrawRect(buf, width, height, node.x * scale, node.y * scale, accentWidth, node.height * scale,
             Color(rgb.0, rgb.1, rgb.2, 255), Color(rgb.0, rgb.1, rgb.2, 255));
    ShowsThen(old(buf[..]), between, buf[..], width, height,
      BoxPrimitives(node.x * scale, node.y * scale, node.width * scale, node.height * scale, NODE_FILL,
                    AccentColor(node)),
      BoxPrimitives(node.x * scale, node.y * scale, ACCENT_WIDTH * scale, node.height * scale,
                    AccentColor(node), AccentColor(node)));
  }

  method DrawEdges(buf: array<byte>, width: nat, height: nat, edges: seq<seq<Point>>, scale: int)
    requires Framed(buf[..], width, height)
    modifies buf
    ensures Shows(old(buf[..]), buf[..], width, height, EdgePrimitives(edges, scale))
  {
    var i := 0;
    while i < |edges|
      invariant i <= |edges|
      invariant Shows(old(buf[..]), buf[..], width, height, EdgePrimitives(edges[..i], scale))
    {
      ghost var before := buf[..];
      DrawEdge(buf, width, height, edges[i], scale);
      ShowsThen(old(buf[..]), before, buf[..], width, height,
                EdgePrimitives(edges[..i], scale), PolylinePrimitives(edges[i], scale));
      assert edges[..i + 1][..i] == edges[..i];
      i := i + 1;
    }
    assert edges[..i] == edges;
  }

  method DrawNodes(buf: array<byte>, width: nat, height: nat, nodes: seq<NodeBox>, scale: int)
    requires Framed(buf[..], width, height)
    modifies buf
    ensures Shows(old(buf[..]), buf[..], width, height, NodesPrimitives(nodes, scale))
  {
    var i := 0;
    while i < |nodes|
      invariant i <= |nodes|
      invariant Shows(old(buf[..]), buf[..], width, height, NodesPrimitives(nodes[..i], scale))
    {
      ghost var before := buf[..];
      DrawNode(buf, width, height, nodes[i], scale);
      ShowsThen(old(buf[..]), before, buf[..], width, height,
                NodesPrimitives(nodes[..i], scale), NodePrimitives(nodes[i], scale));
      assert nodes[..i + 1][..i] == nodes[..i];
      i := i + 1;
    }
    assert nodes[..i] == nodes;
  }

  method BlankCanvas(width: nat, height: nat) returns (buf: array<byte>)
    ensures fresh(buf) && Framed(buf[..], width, height)
    ensures forall x, y | InCanvas(width, height, x, y) :: PixelAt(buf[..], width, height, x, y) == BACKGROUND
  {
    var background: seq<byte> := [7, 16, 24, 255];
    buf := new byte[width * height * 4](i => background[i % 4]);
    forall x, y | InCanvas(width, height, x, y) ensures PixelAt(buf[..], width, height, x, y) == BACKGROUND {
      OffsetInFrame(width, height, x, y);
      var o := Offset(width, x, y);
      assert o % 4 == 0 && (o + 1) % 4 == 1 && (o + 2) % 4 == 2 && (o + 3) % 4 == 3;
    }
  }

  method DrawScene(scene: Scene, scale: int, width: nat, height: nat) returns (buf: array<byte>)
    ensures buf.Length == width * height * 4
    ensures Depicts(buf[..], width, height, scene, scale)
  {
    buf := BlankCanvas(width, height);
    ghost var blank := buf[..];
    DrawEdges(buf, width, height, scene.edges, scale);
    ghost var edged := buf[..];
    DrawNodes(buf, width, height, scene.nodes, scale);
    ShowsThen(blank, edged, buf[..], width, height,
              EdgePrimitives(scene.edges, scale), NodesPrimitives(scene.nodes, scale));
    PaintedDepicts(blank, buf[..], width, height, scene, scale);
  }

  lemma PaintedDepicts(blank: seq<byte>, pixels: seq<byte>, width: nat, height: nat, scene: Scene, scale: int)
    requires Shows(blank, pixels, width, height, ScenePrimitives(scene, scale))
    requires forall x, y | InCanvas(width, height, x, y) :: PixelAt(blank, width, height, x, y) == BACKGROUND
    ensures Depicts(pixels, width, height, scene, scale)
  {
    hide SeenAt, Look, ScenePrimitives, PixelAt;
    forall x, y | InCanvas(width, height, x, y)
      ensures SeenAt(scene, scale, x, y, PixelAt(pixels, width, height, x, y))
    {
      PictureOfScene(scene, scale, x, y);
      assert PixelAt(blank, width, height, x, y) == BACKGROUND;
    }
  }

  // ----- the datastream -----

  const SIGNATURE: seq<byte> := [0x89, 0x50, 0x4E, 0x47, 0x0D, 0x0A, 0x1A, 0x0A]
  const IHDR: seq<byte> := [0x49, 0x48, 0x44, 0x52]
  const TEXT: seq<byte> := [0x74, 0x45, 0x58, 0x74]
  const IDAT: seq<byte> := [0x49, 0x44, 0x41, 0x54]
  const IEND: seq<byte> := [0x49, 0x45, 0x4E, 0x44]
  const KEYWORD: seq<byte> := [0x41, 0x49, 0x4F, 0x53, 0x00]

  datatype PngChunk = PngChunk(kind: seq<byte>, data: seq<byte>)

  ghost predicate Packable(chunks: seq<PngChunk>) {
    forall i | 0 <= i < |chunks| :: |chunks[i].kind| == 4 && |chunks[i].data| < 0x1_0000_0000
  }

  function Chunk(kind: seq<byte>, data: seq<byte>, codec: Codec): seq<byte>
    requires |data| < 0x1_0000_0000
  {
    U32Be(|data|) + kind + data + U32Be(codec.crc(kind + data))
  }

  /** Section 5.3: the length, most significant byte first, then type and data, then the CRC of those two. */
  lemma ChunkLayout(kind: seq<byte>, data: seq<byte>, codec: Codec)
    requires |kind| == 4 && |data| < 0x1_0000_0000
    ensures var b := Chunk(kind, data, codec);
            var n := |data|;
            && |b| == n + 12
            && n == 0x100_0000 * b[0] as int + 0x1_0000 * b[1] as int + 0x100 * b[2] as int + b[3] as int
            && b[4..8] == kind && b[8..8 + n] == data
            && codec.crc(kind + data) == 0x100_0000 * b[n + 8] as int + 0x1_0000 * b[n + 9] as int
                                         + 0x100 * b[n + 10] as int + b[n + 11] as int
  {
    hide U32Be;
    U32BePlaces(|data|);
    U32BePlaces(codec.crc(kind + data));
  }

  ghost function Chunks(chunks: seq<PngChunk>, codec: Codec): seq<byte>
    requires Packable(chunks)
  {
    if chunks == [] then [] else Chunk(chunks[0].kind, chunks[0].data, codec) + Chunks(chunks[1..], codec)
  }

  /** A reader for the chunk layout of section 5.3 of the PNG specification, checking each CRC. */
  function ReadChunks(b: seq<byte>, codec: Codec): Option<seq<PngChunk>> {
    if b == [] then Some([])
    else if |b| < 12 then None
    else
      var size := FromU32Be(b[..4]);
      if |b| < size + 12 then None
      else
        var kind, data := b[4..8], b[8..8 + size];
        if FromU32Be(b[8 + size..12 + size]) != codec.crc(kind + data) then None
        else
          match ReadChunks(b[12 + size..], codec)
          case None => None
          case Some(rest) => Some([PngChunk(kind, data)] + rest)
  }

  lemma {:induction false} ReadsWhatWasWritten(chunks: seq<PngChunk>, codec: Codec)
    requires Packable(chunks)
    ensures ReadChunks(Chunks(chunks, codec), codec) == Some(chunks)
  {
    hide U32Be, FromU32Be;
    if chunks != [] {
      var c, b := chunks[0], Chunks(chunks, codec);
      var size := |c.data|;
      assert b == U32Be(size) + c.kind + c.data + U32Be(codec.crc(c.kind + c.data)) + Chunks(chunks[1..], codec);
      U32BeInverse(size);
      U32BeInverse(codec.crc(c.kind + c.data));
      assert b[..4] == U32Be(size);
      assert b[4..8] == c.kind;
      assert b[8..8 + size] == c.data;
      assert b[8 + size..12 + size] == U32Be(codec.crc(c.kind + c.data));
      assert b[12 + size..] == Chunks(chunks[1..], codec);
      ReadsWhatWasWritten(chunks[1..], codec);
      assert [c] + chunks[1..] == chunks;
    }
  }

  lemma HeadIsChunk(b: seq<byte>, size: nat, codec: Codec)
    requires |b| >= size + 12 && size == FromU32Be(b[..4])
    requires FromU32Be(b[8 + size..12 + size]) == codec.crc(b[4..8] + b[8..8 + size])
    ensures Chunk(b[4..8], b[8..8 + size], codec) == b[..12 + size]
  {
    hide U32Be, FromU32Be;
    U32BeReads(b[..4]);
    U32BeReads(b[8 + size..12 + size]);
    assert b[..4] + b[4..8] + b[8..8 + size] + b[8 + size..12 + size] == b[..12 + size];
  }

  /** Reading is exact: the chunks found are the whole of the bytes. */
  lemma {:induction false} ReadChunksAreWhole(b: seq<byte>, codec: Codec)
    requires ReadChunks(b, codec).Some?
    ensures Packable(ReadChunks(b, codec).value) && Chunks(ReadChunks(b, codec).value, codec) == b
  {
    hide U32Be, FromU32Be, Chunk;
    if b != [] {
      var size := FromU32Be(b[..4]);
      ReadChunksAreWhole(b[12 + size..], codec);
      HeadIsChunk(b, size, codec);
      var cs := ReadChunks(b, codec).value;
      assert cs[1..] == ReadChunks(b[12 + size..], codec).value;
      assert b[..12 + size] + b[12 + size..] == b;
    }
  }

  /** Each scanline preceded by filter type 0 (section 9.2). */
  function Scanlines(pixels: seq<byte>, stride: nat, rows: nat): seq<byte>
    requires |pixels| == rows * stride
    decreases rows
  {
    if rows == 0 then []
    else
      assert rows * stride == stride + (rows - 1) * stride;
      [0] + pixels[..stride] + Scanlines(pixels[stride..], stride, rows - 1)
  }

  function Unfilter(raw: seq<byte>, stride: nat, rows: nat): Option<seq<byte>>
    decreases rows
  {
    if rows == 0 then
      if raw == [] then Some([]) else None
    else if |raw| < stride + 1 || raw[0] != 0 then None
    else
      match Unfilter(raw[stride + 1..], stride, rows - 1)
      case None => None
      case Some(rest) => Some(raw[1..stride + 1] + rest)
  }

  lemma {:induction false} UnfilterScanlines(pixels: seq<byte>, stride: nat, rows: nat)
    requires |pixels| == rows * stride
    ensures Unfilter(Scanlines(pixels, stride, rows), stride, rows) == Some(pixels)
    ensures |Scanlines(pixels, stride, rows)| == rows * (stride + 1)
    decreases rows
  {
    if rows == 0 {
    } else {
      assert rows * stride == stride + (rows - 1) * stride;
      assert rows * (stride + 1) == stride + 1 + (rows - 1) * (stride + 1);
      var raw := Scanlines(pixels, stride, rows);
      assert raw[stride + 1..] == Scanlines(pixels[stride..], stride, rows - 1);
      assert raw[1..stride + 1] == pixels[..stride];
      UnfilterScanlines(pixels[stride..], stride, rows - 1);
      assert pixels[..stride] + pixels[stride..] == pixels;
    }
  }

  lemma NextRow(stride: nat, rows: nat, row: nat)
    requires 0 < row < rows
    ensures row * (stride + 1) == stride + 1 + (row - 1) * (stride + 1) && row * stride == stride + (row - 1) * stride
    ensures rows * stride == stride + (rows - 1) * stride
  {
  }

  lemma SliceAfter<T>(first: seq<T>, rest: seq<T>, at: nat, n: nat)
    requires at + n <= |rest|
    ensures (first + rest)[|first| + at..|first| + at + n] == rest[at..at + n]
  {
  }

  ghost predicate RowStands(pixels: seq<byte>, raw: seq<byte>, stride: nat, from: nat, at: nat) {
    && from + stride <= |pixels| && at + (stride + 1) <= |raw|
    && raw[at..at + (stride + 1)] == [0] + pixels[from..from + stride]
  }

  lemma RowStandsBelow(first: seq<byte>, below: seq<byte>, rest: seq<byte>, stride: nat, from: nat, at: nat)
    requires |first| == stride && RowStands(below, rest, stride, from, at)
    ensures RowStands(first + below, [0] + first + rest, stride, stride + from, stride + 1 + at)
  {
    SliceAfter([0] + first, rest, at, stride + 1);
    SliceAfter(first, below, from, stride);
  }

  lemma FirstRowStands(first: seq<byte>, below: seq<byte>, rest: seq<byte>, stride: nat)
    requires |first| == stride
    ensures RowStands(first + below, [0] + first + rest, stride, 0, 0)
  {
    assert ([0] + first + rest)[..stride + 1] == [0] + first;
    assert (first + below)[..stride] == first;
  }

  lemma FirstScanline(pixels: seq<byte>, stride: nat, rows: nat)
    requires |pixels| == rows * stride && rows > 0
    ensures |pixels| >= stride && |pixels[stride..]| == (rows - 1) * stride
    ensures RowStands(pixels, Scanlines(pixels, stride, rows), stride, 0, 0)
  {
    assert rows * stride == stride + (rows - 1) * stride;
    FirstRowStands(pixels[..stride], pixels[stride..], Scanlines(pixels[stride..], stride, rows - 1), stride);
    assert pixels[..stride] + pixels[stride..] == pixels;
  }

  lemma NextScanline(pixels: seq<byte>, stride: nat, rows: nat, from: nat, at: nat)
    requires |pixels| == rows * stride && rows > 0 && |pixels| >= stride && |pixels[stride..]| == (rows - 1) * stride
    requires RowStands(pixels[stride..], Scanlines(pixels[stride..], stride, rows - 1), stride, from, at)
    ensures RowStands(pixels, Scanlines(pixels, stride, rows), stride, stride + from, stride + 1 + at)
  {
    hide RowStands;
    RowStandsBelow(pixels[..stride], pixels[stride..], Scanlines(pixels[stride..], stride, rows - 1), stride, from, at);
    assert pixels[..stride] + pixels[stride..] == pixels;
  }

  /** Row r of the raw data is a zero byte followed by row r of the pixels. */
  lemma {:induction false} ScanlineAt(pixels: seq<byte>, stride: nat, rows: nat, row: nat)
    requires |pixels| == rows * stride && row < rows
    ensures RowStands(pixels, Scanlines(pixels, stride, rows), stride, row * stride, row * (stride + 1))
    decreases rows
  {
    hide RowStands, Scanlines;
    FirstScanline(pixels, stride, rows);
    if row > 0 {
      ScanlineAt(pixels[stride..], stride, rows - 1, row - 1);
      NextScanline(pixels, stride, rows, (row - 1) * stride, (row - 1) * (stride + 1));
      NextRow(stride, rows, row);
    }
  }

  lemma RowOf(pixels: seq<byte>, stride: nat, rows: nat, row: nat)
    requires |pixels| == rows * stride && row < rows
    ensures 0 <= row * stride <= (row + 1) * stride <= |pixels|
    ensures |pixels[row * stride..]| == (rows - row) * stride
    ensures |pixels[(row + 1) * stride..]| == (rows - (row + 1)) * stride
    ensures Scanlines(pixels[row * stride..], stride, rows - row) ==
            [0] + pixels[row * stride..(row + 1) * stride]
            + Scanlines(pixels[(row + 1) * stride..], stride, rows - (row + 1))
  {
    assert (row + 1) * stride == row * stride + stride;
    assert rows * stride == row * stride + (rows - row) * stride;
    assert (rows - row) * stride == stride + (rows - row - 1) * stride;
    MulGap(row, rows, stride);
    var rest := pixels[row * stride..];
    assert rest[stride..] == pixels[(row + 1) * stride..];
    assert rest[..stride] == pixels[row * stride..(row + 1) * stride];
  }

  method FilterRows(pixels: seq<byte>, stride: nat, height: nat) returns (raw: seq<byte>)
    requires |pixels| == height * stride
    ensures raw == Scanlines(pixels, stride, height)
  {
    raw := [];
    var row := 0;
    assert pixels[0 * stride..] == pixels;
    while row < height
      invariant row <= height && row * stride <= |pixels|
      invariant |pixels[row * stride..]| == (height - row) * stride
      invariant raw + Scanlines(pixels[row * stride..], stride, height - row) == Scanlines(pixels, stride, height)
    {
      RowOf(pixels, stride, height, row);
      raw := raw + [0] + pixels[row * stride..(row + 1) * stride];
      row := row + 1;
    }
    assert Scanlines(pixels[row * stride..], stride, 0) == [];
  }

  function Header(width: u32, height: u32): seq<byte> {
    U32Be(width) + U32Be(height) + [8, 6, 0, 0, 0]
  }

  // ----- reading a file back -----

  datatype Image = Image(width: nat, height: nat, pixels: seq<byte>)

  /** Image data is the concatenation of all IDAT chunks. */
  function ImageData(chunks: seq<PngChunk>): seq<byte> {
    if chunks == [] then []
    else (if chunks[0].kind == IDAT then chunks[0].data else []) + ImageData(chunks[1..])
  }

  /** A decoder for 8-bit RGBA, non-interlaced files whose scanlines use filter type 0. */
  function Decode(file: seq<byte>, codec: Codec): Option<Image> {
    if |file| < 8 || file[..8] != SIGNATURE then None
    else
      match ReadChunks(file[8..], codec)
      case None => None
      case Some(chunks) =>
        if |chunks| < 2 || chunks[0].kind != IHDR || |chunks[0].data| != 13
           || chunks[|chunks| - 1] != PngChunk(IEND, []) || chunks[0].data[8..] != [8, 6, 0, 0, 0] then None
        else
          var width, height := FromU32Be(chunks[0].data[..4]), FromU32Be(chunks[0].data[4..8]);
          match codec.inflate(ImageData(chunks))
          case None => None
          case Some(raw) =>
            match Unfilter(raw, width * 4, height)
            case None => None
            case Some(pixels) => Some(Image(width, height, pixels))
  }

  function FileChunks(width: u32, height: u32, metadata: seq<byte>, image: seq<byte>): seq<PngChunk> {
    [PngChunk(IHDR, Header(width, height)), PngChunk(TEXT, KEYWORD + metadata), PngChunk(IDAT, image),
     PngChunk(IEND, [])]
  }

  lemma FramedAsChunks(width: u32, height: u32, metadata: seq<byte>, image: seq<byte>, codec: Codec)
    requires |metadata| + 5 < 0x1_0000_0000 && |image| < 0x1_0000_0000
    ensures SIGNATURE + Chunks(FileChunks(width, height, metadata, image), codec) ==
            SIGNATURE + Chunk(IHDR, Header(width, height), codec) + Chunk(TEXT, KEYWORD + metadata, codec)
            + Chunk(IDAT, image, codec) + Chunk(IEND, [], codec)
  {
    hide Chunk;
    var cs := FileChunks(width, height, metadata, image);
    var a, b := Chunk(IHDR, Header(width, height), codec), Chunk(TEXT, KEYWORD + metadata, codec);
    var c, d := Chunk(IDAT, image, codec), Chunk(IEND, [], codec);
    assert cs[3..][1..] == [] && cs[2..][1..] == cs[3..] && cs[1..][1..] == cs[2..];
    assert Chunks(cs[3..], codec) == d + [];
    assert Chunks(cs[2..], codec) == c + Chunks(cs[3..], codec);
    assert Chunks(cs[1..], codec) == b + Chunks(cs[2..], codec);
    assert Chunks(cs, codec) == a + Chunks(cs[1..], codec);
    assert a + (b + (c + (d + []))) == a + b + c + d;
  }

  /** The framing written around a pixel buffer is undone by the decoder. */
  lemma DecodesWhatWasFramed(width: u32, height: u32, metadata: seq<byte>, pixels: seq<byte>, codec: Codec)
    requires Lossless(codec) && |pixels| == height * (width * 4)
    requires |metadata| + 5 < 0x1_0000_0000
    requires |codec.compress(Scanlines(pixels, width * 4, height))| < 0x1_0000_0000
    ensures var cs := FileChunks(width, height, metadata, codec.compress(Scanlines(pixels, width * 4, height)));
            Decode(SIGNATURE + Chunks(cs, codec), codec) == Some(Image(width, height, pixels))
  {
    hide U32Be, FromU32Be, Chunks, ReadChunks, Scanlines;
    var image := codec.compress(Scanlines(pixels, width * 4, height));
    var cs := FileChunks(width, height, metadata, image);
    var file := SIGNATURE + Chunks(cs, codec);
    assert file[..8] == SIGNATURE && file[8..] == Chunks(cs, codec);
    ReadsWhatWasWritten(cs, codec);
    assert Header(width, height)[..4] == U32Be(width) && Header(width, height)[4..8] == U32Be(height);
    U32BeInverse(width);
    U32BeInverse(height);
    assert ImageData(cs) == image by {
      assert ImageData(cs[3..]) == [];
      assert ImageData(cs[2..]) == image + ImageData(cs[2..][1..]) && cs[2..][1..] == cs[3..];
      assert ImageData(cs[1..]) == [] + ImageData(cs[1..][1..]) && cs[1..][1..] == cs[2..];
    }
    UnfilterScanlines(pixels, width * 4, height);
  }

  // ----- the exported function -----

  predicate Fits(n: int) {
    0 <= n < 0x1_0000_0000
  }

  /** A header for a picture of this size: big-endian width and height, 8-bit RGBA, no interlacing. */
  ghost predicate IsHeader(b: seq<byte>, width: nat, height: nat) {
    && |b| == 13
    && width == 0x100_0000 * b[0] as int + 0x1_0000 * b[1] as int + 0x100 * b[2] as int + b[3] as int
    && height == 0x100_0000 * b[4] as int + 0x1_0000 * b[5] as int + 0x100 * b[6] as int + b[7] as int
    && b[8..] == [8, 6, 0, 0, 0]
  }

  /**
   * The bytes of a scene's file: the signature, then the chunks IHDR, tEXt, IDAT and IEND and no others, the second
   * with the scene's metadata under the keyword AIOS, the third with its picture.
   */
  ghost predicate IsFileOf(file: seq<byte>, scene: Scene, scale: int, codec: Codec) {
    && |file| >= 8 && file[..8] == [137, 80, 78, 71, 13, 10, 26, 10]
    && var chunks := ReadChunks(file[8..], codec);
    && chunks.Some? && |chunks.value| == 4
    && chunks.value[0].kind == [73, 72, 68, 82]
    && scene.width * scale >= 0 && scene.height * scale >= 0
    && IsHeader(chunks.value[0].data, scene.width * scale, scene.height * scale)
    && chunks.value[1] == PngChunk([116, 69, 88, 116], [65, 73, 79, 83, 0] + scene.metadata)
    && chunks.value[2].kind == [73, 68, 65, 84]
    && chunks.value[3] == PngChunk([73, 69, 78, 68], [])
    && exists pixels ::
         && Depicts(pixels, scene.width * scale, scene.height * scale, scene, scale)
         && IsImageData(chunks.value[2].data, pixels, scene.width * scale, scene.height * scale, codec)
  }

  ghost predicate IsImageData(data: seq<byte>, pixels: seq<byte>, width: nat, height: nat, codec: Codec) {
    |pixels| == height * (width * 4) && data == codec.compress(Scanlines(pixels, width * 4, height))
  }

  /** The picture is too large for its fields, or its compressed form is. */
  ghost predicate Overflows(scene: Scene, scale: int, codec: Codec) {
    || !Fits(scene.width * scale) || !Fits(scene.height * scale) || !Fits(|scene.metadata| + 5)
    || exists pixels, data ::
         && Depicts(pixels, scene.width * scale, scene.height * scale, scene, scale)
         && IsImageData(data, pixels, scene.width * scale, scene.height * scale, codec) && !Fits(|data|)
  }

  lemma WritesTheFile(scene: Scene, scale: int, pixels: seq<byte>, codec: Codec)
    requires Fits(scene.width * scale) && Fits(scene.height * scale) && Fits(|scene.metadata| + 5)
    requires Depicts(pixels, scene.width * scale, scene.height * scale, scene, scale)
    requires |pixels| == scene.height * scale * (scene.width * scale * 4)
    requires Fits(|codec.compress(Scanlines(pixels, scene.width * scale * 4, scene.height * scale))|)
    ensures var image := codec.compress(Scanlines(pixels, scene.width * scale * 4, scene.height * scale));
            var cs := FileChunks(scene.width * scale, scene.height * scale, scene.metadata, image);
            IsFileOf(SIGNATURE + Chunks(cs, codec), scene, scale, codec)
  {
    hide Depicts, Scanlines, Chunks, ReadChunks, U32Be;
    var width, height := scene.width * scale, scene.height * scale;
    var image := codec.compress(Scanlines(pixels, width * 4, height));
    var cs := FileChunks(width, height, scene.metadata, image);
    ReadsWhatWasWritten(cs, codec);
    assert (SIGNATURE + Chunks(cs, codec))[8..] == Chunks(cs, codec);
    U32BePlaces(width);
    U32BePlaces(height);
    assert IsHeader(Header(width, height), width, height);
    assert IsImageData(image, pixels, width, height, codec);
  }

  lemma FittingFileFits(scene: Scene, scale: int, pixels: seq<byte>, codec: Codec)
    requires Fits(scene.width * scale) && Fits(scene.height * scale) && Fits(|scene.metadata| + 5)
    requires Depicts(pixels, scene.width * scale, scene.height * scale, scene, scale)
    requires |pixels| == scene.height * scale * (scene.width * scale * 4)
    ensures Overflows(scene, scale, codec) <==>
            !Fits(|codec.compress(Scanlines(pixels, scene.width * scale * 4, scene.height * scale))|)
  {
    hide Depicts, Scanlines;
    var width, height := scene.width * scale, scene.height * scale;
    assert IsImageData(codec.compress(Scanlines(pixels, width * 4, height)), pixels, width, height, codec);
    forall other, data |
      Depicts(other, width, height, scene, scale) && IsImageData(data, other, width, height, codec)
      ensures data == codec.compress(Scanlines(pixels, width * 4, height))
    {
      OnePicture(pixels, other, width, height, scene, scale);
    }
  }

  method RenderPng(scene: Scene, scale: int, codec: Codec) returns (r: Result<seq<byte>, RenderError>)
    ensures r == Err(ScaleOutOfRange) <==> scale < 1 || scale > 4
    ensures r == Err(FieldOverflow) <==> 1 <= scale <= 4 && Overflows(scene, scale, codec)
    ensures r.Ok? ==> IsFileOf(r.value, scene, scale, codec)
    ensures r.Ok? && Lossless(codec) ==>
              && Fits(scene.width * scale) && Fits(scene.height * scale)
              && exists pixels ::
                   && Decode(r.value, codec) == Some(Image(scene.width * scale, scene.height * scale, pixels))
                   && Depicts(pixels, scene.width * scale, scene.height * scale, scene, scale)
  {
    hide Depicts, Scanlines, Decode, IsFileOf, Chunk, Chunks;
    if scale < 1 || scale > 4 {
      return Err(ScaleOutOfRange);
    }
    var width := scene.width * scale;
    var height := scene.height * scale;
    // A negative size leaves the source with an empty buffer that no call writes, until the header fails to pack.
    if width < 0 || height < 0 {
      return Err(FieldOverflow);
    }
    var buf := DrawScene(scene, scale, width, height);
    var pixels := buf[..];
    assert |pixels| == width * height * 4 == height * (width * 4);
    var raw := FilterRows(pixels, width * 4, height);
    UnfilterScanlines(pixels, width * 4, height);
    var image := codec.compress(raw);
    if !Fits(width) || !Fits(height) || !Fits(|scene.metadata| + 5) {
      return Err(FieldOverflow);
    }
    FittingFileFits(scene, scale, pixels, codec);
    if !Fits(|image|) {
      return Err(FieldOverflow);
    }
    var file := SIGNATURE + Chunk(IHDR, Header(width, height), codec) + Chunk(TEXT, KEYWORD + scene.metadata, codec)
      + Chunk(IDAT, image, codec) + Chunk(IEND, [], codec);
    FramedAsChunks(width, height, scene.metadata, image, codec);
    WritesTheFile(scene, scale, pixels, codec);
    if Lossless(codec) {
      DecodesWhatWasFramed(width, height, scene.metadata, pixels, codec);
    }
    return Ok(file);
  }
}
