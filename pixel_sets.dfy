/**
 * Binary (0/255) images as sets of lit pixels inside a rectangular frame.
 * `cv2.bitwise_and`, `bitwise_or` and `bitwise_not` become intersection, union and
 * complement within the frame. Erosion, dilation and opening with a square kernel of
 * ones are given concrete definitions; the image passes take the operators as a
 * `Morphology` record and rely only on `Sound`: erosion and opening shrink an image and
 * dilation grows it.
 */
module PixelSets {

  type Pixel = (int, int)
  type Image = set<Pixel>

  /** The pixels of a `w` by `h` image. */
  function Frame(w: nat, h: nat): (f: set<Pixel>)
    ensures forall p :: p in f <==> 0 <= p.0 < w && 0 <= p.1 < h
  {
    set x, y | 0 <= x < w && 0 <= y < h :: (x, y)
  }

  /** `cv2.bitwise_not`: the unlit pixels of the frame. */
  function Not(img: Image, frame: set<Pixel>): (r: Image)
    ensures forall p :: p in r <==> p in frame && p !in img
  {
    frame - img
  }

  /** The kernel window: the square of half-width `k` centred on `p`. */
  function Window(p: Pixel, k: nat): (w: set<Pixel>)
    ensures forall q :: q in w <==> p.0 - k <= q.0 <= p.0 + k && p.1 - k <= q.1 <= p.1 + k
  {
    set x, y | p.0 - k <= x <= p.0 + k && p.1 - k <= y <= p.1 + k :: (x, y)
  }

  /**
   * `cv2.erode` with a square kernel of half-width `k`: a lit pixel stays lit when every
   * frame pixel of its window is lit (pixels outside the frame count as lit).
   */
  function Erode(img: Image, frame: set<Pixel>, k: nat): (r: Image)
    ensures r <= img
  {
    set p | p in img && Window(p, k) * frame <= img
  }

  /** `cv2.dilate` with a square kernel of half-width `k`, clipped to the frame. */
  function Dilate(img: Image, frame: set<Pixel>, k: nat): (r: Image)
    ensures r <= frame
    ensures img <= frame ==> img <= r
  {
    var r := set p | p in frame && Window(p, k) * img != {};
    assert img <= frame ==> img <= r by {
      forall p | p in img && p in frame ensures p in r {
        assert p in Window(p, k) * img;
      }
    }
    r
  }

  /** `cv2.morphologyEx(MORPH_OPEN)`: erosion followed by dilation. */
  function Open(img: Image, frame: set<Pixel>, k: nat): (r: Image)
    ensures r <= img
  {
    var e := Erode(img, frame, k);
    var d := Dilate(e, frame, k);
    assert d <= img by {
      forall p | p in d ensures p in img {
        var q :| q in Window(p, k) * e;
        assert p in Window(q, k) * frame;
      }
    }
    d
  }

  /**
   * The morphology operators as the image passes use them: erosion, dilation and
   * opening with a square kernel of the given half-width, on images of one frame.
   */
  datatype Morphology = Morphology(
    erode: (Image, nat) -> Image,
    dilate: (Image, nat) -> Image,
    open: (Image, nat) -> Image)

  /**
   * What the passes rely on: erosion and opening shrink an image, dilation stays in the
   * frame and grows an image of the frame.
   */
  ghost predicate Sound(m: Morphology, frame: set<Pixel>)
  {
    (forall img, k :: m.erode(img, k) <= img)
    && (forall img, k :: m.open(img, k) <= img)
    && (forall img, k :: m.dilate(img, k) <= frame)
    && (forall img, k :: img <= frame ==> img <= m.dilate(img, k))
  }

  /** The OpenCV operators on a frame, as defined above. */
  function Cv2(frame: set<Pixel>): (m: Morphology)
    ensures Sound(m, frame)
  {
    Morphology((img, k: nat) => Erode(img, frame, k), (img, k: nat) => Dilate(img, frame, k),
               (img, k: nat) => Open(img, frame, k))
  }
}
