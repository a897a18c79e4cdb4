/** The 256 constants of crc32.cpp, 16 to a row, and the bit-serial steps they tabulate. */
module Crc32Table {
  import opened Words

  /** One shift of the reflected register, as in section 8 of RFC 1952. */
  function BitStep(c: word): word {
    if c & 1 == 1 then 0xEDB88320 ^ (c >> 1) else c >> 1
  }

  /** `n` shifts. */
  function Steps(n: nat, c: word): word {
    if n == 0 then c else Steps(n - 1, BitStep(c))
  }

  function Table(i: byte): word {
    match i >> 4
    case 0x0 => Row0(i & 0xF)
    case 0x1 => Row1(i & 0xF)
    case 0x2 => Row2(i & 0xF)
    case 0x3 => Row3(i & 0xF)
    case 0x4 => Row4(i & 0xF)
    case 0x5 => Row5(i & 0xF)
    case 0x6 => Row6(i & 0xF)
    case 0x7 => Row7(i & 0xF)
    case 0x8 => Row8(i & 0xF)
    case 0x9 => Row9(i & 0xF)
    case 0xA => RowA(i & 0xF)
    case 0xB => RowB(i & 0xF)
    case 0xC => RowC(i & 0xF)
    case 0xD => RowD(i & 0xF)
    case 0xE => RowE(i & 0xF)
    case _ => RowF(i & 0xF)
  }

  function Row0(j: byte): word {
    match j
    case 0x0 => 0x00000000 case 0x1 => 0x77073096 case 0x2 => 0xEE0E612C case 0x3 => 0x990951BA
    case 0x4 => 0x076DC419 case 0x5 => 0x706AF48F case 0x6 => 0xE963A535 case 0x7 => 0x9E6495A3
    case 0x8 => 0x0EDB8832 case 0x9 => 0x79DCB8A4 case 0xA => 0xE0D5E91E case 0xB => 0x97D2D988
    case 0xC => 0x09B64C2B case 0xD => 0x7EB17CBD case 0xE => 0xE7B82D07 case _ => 0x90BF1D91
  }

  function Row1(j: byte): word {
    match j
    case 0x0 => 0x1DB71064 case 0x1 => 0x6AB020F2 case 0x2 => 0xF3B97148 case 0x3 => 0x84BE41DE
    case 0x4 => 0x1ADAD47D case 0x5 => 0x6DDDE4EB case 0x6 => 0xF4D4B551 case 0x7 => 0x83D385C7
    case 0x8 => 0x136C9856 case 0x9 => 0x646BA8C0 case 0xA => 0xFD62F97A case 0xB => 0x8A65C9EC
    case 0xC => 0x14015C4F case 0xD => 0x63066CD9 case 0xE => 0xFA0F3D63 case _ => 0x8D080DF5
  }

  function Row2(j: byte): word {
    match j
    case 0x0 => 0x3B6E20C8 case 0x1 => 0x4C69105E case 0x2 => 0xD56041E4 case 0x3 => 0xA2677172
    case 0x4 => 0x3C03E4D1 case 0x5 => 0x4B04D447 case 0x6 => 0xD20D85FD case 0x7 => 0xA50AB56B
    case 0x8 => 0x35B5A8FA case 0x9 => 0x42B2986C case 0xA => 0xDBBBC9D6 case 0xB => 0xACBCF940
    case 0xC => 0x32D86CE3 case 0xD => 0x45DF5C75 case 0xE => 0xDCD60DCF case _ => 0xABD13D59
  }

  function Row3(j: byte): word {
    match j
    case 0x0 => 0x26D930AC case 0x1 => 0x51DE003A case 0x2 => 0xC8D75180 case 0x3 => 0xBFD06116
    case 0x4 => 0x21B4F4B5 case 0x5 => 0x56B3C423 case 0x6 => 0xCFBA9599 case 0x7 => 0xB8BDA50F
    case 0x8 => 0x2802B89E case 0x9 => 0x5F058808 case 0xA => 0xC60CD9B2 case 0xB => 0xB10BE924
    case 0xC => 0x2F6F7C87 case 0xD => 0x58684C11 case 0xE => 0xC1611DAB case _ => 0xB6662D3D
  }

  function Row4(j: byte): word {
    match j
    case 0x0 => 0x76DC4190 case 0x1 => 0x01DB7106 case 0x2 => 0x98D220BC case 0x3 => 0xEFD5102A
    case 0x4 => 0x71B18589 case 0x5 => 0x06B6B51F case 0x6 => 0x9FBFE4A5 case 0x7 => 0xE8B8D433
    case 0x8 => 0x7807C9A2 case 0x9 => 0x0F00F934 case 0xA => 0x9609A88E case 0xB => 0xE10E9818
    case 0xC => 0x7F6A0DBB case 0xD => 0x086D3D2D case 0xE => 0x91646C97 case _ => 0xE6635C01
  }

  function Row5(j: byte): word {
    match j
    case 0x0 => 0x6B6B51F4 case 0x1 => 0x1C6C6162 case 0x2 => 0x856530D8 case 0x3 => 0xF262004E
    case 0x4 => 0x6C0695ED case 0x5 => 0x1B01A57B case 0x6 => 0x8208F4C1 case 0x7 => 0xF50FC457
    case 0x8 => 0x65B0D9C6 case 0x9 => 0x12B7E950 case 0xA => 0x8BBEB8EA case 0xB => 0xFCB9887C
    case 0xC => 0x62DD1DDF case 0xD => 0x15DA2D49 case 0xE => 0x8CD37CF3 case _ => 0xFBD44C65
  }

  function Row6(j: byte): word {
    match j
    case 0x0 => 0x4DB26158 case 0x1 => 0x3AB551CE case 0x2 => 0xA3BC0074 case 0x3 => 0xD4BB30E2
    case 0x4 => 0x4ADFA541 case 0x5 => 0x3DD895D7 case 0x6 => 0xA4D1C46D case 0x7 => 0xD3D6F4FB
    case 0x8 => 0x4369E96A case 0x9 => 0x346ED9FC case 0xA => 0xAD678846 case 0xB => 0xDA60B8D0
    case 0xC => 0x44042D73 case 0xD => 0x33031DE5 case 0xE => 0xAA0A4C5F case _ => 0xDD0D7CC9
  }

  function Row7(j: byte): word {
    match j
    case 0x0 => 0x5005713C case 0x1 => 0x270241AA case 0x2 => 0xBE0B1010 case 0x3 => 0xC90C2086
    case 0x4 => 0x5768B525 case 0x5 => 0x206F85B3 case 0x6 => 0xB966D409 case 0x7 => 0xCE61E49F
    case 0x8 => 0x5EDEF90E case 0x9 => 0x29D9C998 case 0xA => 0xB0D09822 case 0xB => 0xC7D7A8B4
    case 0xC => 0x59B33D17 case 0xD => 0x2EB40D81 case 0xE => 0xB7BD5C3B case _ => 0xC0BA6CAD
  }

  function Row8(j: byte): word {
    match j
    case 0x0 => 0xEDB88320 case 0x1 => 0x9ABFB3B6 case 0x2 => 0x03B6E20C case 0x3 => 0x74B1D29A
    case 0x4 => 0xEAD54739 case 0x5 => 0x9DD277AF case 0x6 => 0x04DB2615 case 0x7 => 0x73DC1683
    case 0x8 => 0xE3630B12 case 0x9 => 0x94643B84 case 0xA => 0x0D6D6A3E case 0xB => 0x7A6A5AA8
    case 0xC => 0xE40ECF0B case 0xD => 0x9309FF9D case 0xE => 0x0A00AE27 case _ => 0x7D079EB1
  }

  function Row9(j: byte): word {
    match j
    case 0x0 => 0xF00F9344 case 0x1 => 0x8708A3D2 case 0x2 => 0x1E01F268 case 0x3 => 0x6906C2FE
    case 0x4 => 0xF762575D case 0x5 => 0x806567CB case 0x6 => 0x196C3671 case 0x7 => 0x6E6B06E7
    case 0x8 => 0xFED41B76 case 0x9 => 0x89D32BE0 case 0xA => 0x10DA7A5A case 0xB => 0x67DD4ACC
    case 0xC => 0xF9B9DF6F case 0xD => 0x8EBEEFF9 case 0xE => 0x17B7BE43 case _ => 0x60B08ED5
  }

  function RowA(j: byte): word {
    match j
    case 0x0 => 0xD6D6A3E8 case 0x1 => 0xA1D1937E case 0x2 => 0x38D8C2C4 case 0x3 => 0x4FDFF252
    case 0x4 => 0xD1BB67F1 case 0x5 => 0xA6BC5767 case 0x6 => 0x3FB506DD case 0x7 => 0x48B2364B
    case 0x8 => 0xD80D2BDA case 0x9 => 0xAF0A1B4C case 0xA => 0x36034AF6 case 0xB => 0x41047A60
    case 0xC => 0xDF60EFC3 case 0xD => 0xA867DF55 case 0xE => 0x316E8EEF case _ => 0x4669BE79
  }

  function RowB(j: byte): word {
    match j
    case 0x0 => 0xCB61B38C case 0x1 => 0xBC66831A case 0x2 => 0x256FD2A0 case 0x3 => 0x5268E236
    case 0x4 => 0xCC0C7795 case 0x5 => 0xBB0B4703 case 0x6 => 0x220216B9 case 0x7 => 0x5505262F
    case 0x8 => 0xC5BA3BBE case 0x9 => 0xB2BD0B28 case 0xA => 0x2BB45A92 case 0xB => 0x5CB36A04
    case 0xC => 0xC2D7FFA7 case 0xD => 0xB5D0CF31 case 0xE => 0x2CD99E8B case _ => 0x5BDEAE1D
  }

  function RowC(j: byte): word {
    match j
    case 0x0 => 0x9B64C2B0 case 0x1 => 0xEC63F226 case 0x2 => 0x756AA39C case 0x3 => 0x026D930A
    case 0x4 => 0x9C0906A9 case 0x5 => 0xEB0E363F case 0x6 => 0x72076785 case 0x7 => 0x05005713
    case 0x8 => 0x95BF4A82 case 0x9 => 0xE2B87A14 case 0xA => 0x7BB12BAE case 0xB => 0x0CB61B38
    case 0xC => 0x92D28E9B case 0xD => 0xE5D5BE0D case 0xE => 0x7CDCEFB7 case _ => 0x0BDBDF21
  }

  function RowD(j: byte): word {
    match j
    case 0x0 => 0x86D3D2D4 case 0x1 => 0xF1D4E242 case 0x2 => 0x68DDB3F8 case 0x3 => 0x1FDA836E
    case 0x4 => 0x81BE16CD case 0x5 => 0xF6B9265B case 0x6 => 0x6FB077E1 case 0x7 => 0x18B74777
    case 0x8 => 0x88085AE6 case 0x9 => 0xFF0F6A70 case 0xA => 0x66063BCA case 0xB => 0x11010B5C
    case 0xC => 0x8F659EFF case 0xD => 0xF862AE69 case 0xE => 0x616BFFD3 case _ => 0x166CCF45
  }

  function RowE(j: byte): word {
    match j
    case 0x0 => 0xA00AE278 case 0x1 => 0xD70DD2EE case 0x2 => 0x4E048354 case 0x3 => 0x3903B3C2
    case 0x4 => 0xA7672661 case 0x5 => 0xD06016F7 case 0x6 => 0x4969474D case 0x7 => 0x3E6E77DB
    case 0x8 => 0xAED16A4A case 0x9 => 0xD9D65ADC case 0xA => 0x40DF0B66 case 0xB => 0x37D83BF0
    case 0xC => 0xA9BCAE53 case 0xD => 0xDEBB9EC5 case 0xE => 0x47B2CF7F case _ => 0x30B5FFE9
  }

  function RowF(j: byte): word {
    match j
    case 0x0 => 0xBDBDF21C case 0x1 => 0xCABAC28A case 0x2 => 0x53B39330 case 0x3 => 0x24B4A3A6
    case 0x4 => 0xBAD03605 case 0x5 => 0xCDD70693 case 0x6 => 0x54DE5729 case 0x7 => 0x23D967BF
    case 0x8 => 0xB3667A2E case 0x9 => 0xC4614AB8 case 0xA => 0x5D681B02 case 0xB => 0x2A6F2B94
    case 0xC => 0xB40BBE37 case 0xD => 0xC30C8EA1 case 0xE => 0x5A05DF1B case _ => 0x2D02EF8D
  }

  lemma OddOrEven(x: word)
    ensures x & 1 == 1 || x & 1 == 0
  {
  }

  lemma EvenEven(x: word, y: word)
    requires x & 1 == 0 && y & 1 == 0
    ensures BitStep(x ^ y) == BitStep(x) ^ BitStep(y)
  {
    assert (x ^ y) & 1 == 0;
  }

  lemma EvenOdd(x: word, y: word)
    requires x & 1 == 0 && y & 1 == 1
    ensures BitStep(x ^ y) == BitStep(x) ^ BitStep(y)
  {
    assert (x ^ y) & 1 == 1;
  }

  lemma OddEven(x: word, y: word)
    requires x & 1 == 1 && y & 1 == 0
    ensures BitStep(x ^ y) == BitStep(x) ^ BitStep(y)
  {
    assert (x ^ y) & 1 == 1;
  }

  lemma OddOdd(x: word, y: word)
    requires x & 1 == 1 && y & 1 == 1
    ensures BitStep(x ^ y) == BitStep(x) ^ BitStep(y)
  {
    assert (x ^ y) & 1 == 0;
  }

  lemma XorIsLinear(x: word, y: word)
    ensures BitStep(x ^ y) == BitStep(x) ^ BitStep(y)
  {
    hide BitStep;
    OddOrEven(x);
    OddOrEven(y);
    if x & 1 == 1 {
      if y & 1 == 1 {
        OddOdd(x, y);
      } else {
        OddEven(x, y);
      }
    } else if y & 1 == 1 {
      EvenOdd(x, y);
    } else {
      EvenEven(x, y);
    }
  }

  lemma BitStepLinear(x: word, y: word)
    ensures BitStep(Xor(x, y)) == Xor(BitStep(x), BitStep(y))
  {
    hide BitStep;
    XorIsLinear(x, y);
  }

  lemma {:induction false} StepsLinear(n: nat, x: word, y: word)
    ensures Steps(n, Xor(x, y)) == Xor(Steps(n, x), Steps(n, y))
  {
    hide BitStep, Xor;
    if n > 0 {
      BitStepLinear(x, y);
      StepsLinear(n - 1, BitStep(x), BitStep(y));
    }
  }

  // The table by linearity: eight shifts of a byte are the sum of eight shifts of each of its bits.

  function Pick(i: byte, bit: byte, entry: word): word {
    if i & bit == bit then entry else 0
  }

  function FromBits(i: byte): word {
    Xor(Xor(Xor(Xor(Xor(Xor(Xor(Pick(i, 0x01, 0x77073096),
      Pick(i, 0x02, 0xEE0E612C)),
      Pick(i, 0x04, 0x076DC419)),
      Pick(i, 0x08, 0x0EDB8832)),
      Pick(i, 0x10, 0x1DB71064)),
      Pick(i, 0x20, 0x3B6E20C8)),
      Pick(i, 0x40, 0x76DC4190)),
      Pick(i, 0x80, 0xEDB88320))
  }

  lemma StepsOfBit(i: byte, bit: byte, entry: word)
    requires Steps(8, bit as word) == entry && Steps(8, 0) == 0
    requires i & bit == bit || i & bit == 0
    ensures Steps(8, (i & bit) as word) == Pick(i, bit, entry)
  {
    hide Steps;
  }

  lemma StepsOfUnits()
    ensures Steps(8, 0) == 0
    ensures Steps(8, 0x01) == 0x77073096
    ensures Steps(8, 0x02) == 0xEE0E612C
    ensures Steps(8, 0x04) == 0x076DC419
    ensures Steps(8, 0x08) == 0x0EDB8832
    ensures Steps(8, 0x10) == 0x1DB71064
    ensures Steps(8, 0x20) == 0x3B6E20C8
    ensures Steps(8, 0x40) == 0x76DC4190
    ensures Steps(8, 0x80) == 0xEDB88320
  {
    Unroll(0);
    Unroll(0x01);
    Unroll(0x02);
    Unroll(0x04);
    Unroll(0x08);
    Unroll(0x10);
    Unroll(0x20);
    Unroll(0x40);
    Unroll(0x80);
  }

  lemma Unroll(c: word)
    ensures Steps(8, c) == BitStep(BitStep(BitStep(BitStep(BitStep(BitStep(BitStep(BitStep(c))))))))
  {
    hide BitStep;
    var four := BitStep(BitStep(BitStep(BitStep(c))));
    assert Steps(6, BitStep(BitStep(c))) == Steps(4, four);
    assert Steps(2, BitStep(BitStep(four))) == Steps(0, BitStep(BitStep(BitStep(BitStep(four)))));
  }

  lemma StepsOfEight(x0: word, x1: word, x2: word, x3: word, x4: word, x5: word, x6: word, x7: word)
    ensures Steps(8, Xor(Xor(Xor(Xor(Xor(Xor(Xor(x0, x1), x2), x3), x4), x5), x6), x7))
         == Xor(Xor(Xor(Xor(Xor(Xor(Xor(Steps(8, x0), Steps(8, x1)), Steps(8, x2)), Steps(8, x3)), Steps(8, x4)),
              Steps(8, x5)), Steps(8, x6)), Steps(8, x7))
  {
    hide Steps, Xor;
    StepsLinear(8, x0, x1);
    StepsLinear(8, Xor(x0, x1), x2);
    StepsLinear(8, Xor(Xor(x0, x1), x2), x3);
    StepsLinear(8, Xor(Xor(Xor(x0, x1), x2), x3), x4);
    StepsLinear(8, Xor(Xor(Xor(Xor(x0, x1), x2), x3), x4), x5);
    StepsLinear(8, Xor(Xor(Xor(Xor(Xor(x0, x1), x2), x3), x4), x5), x6);
    StepsLinear(8, Xor(Xor(Xor(Xor(Xor(Xor(x0, x1), x2), x3), x4), x5), x6), x7);
  }

  lemma OneBit(i: byte, bit: byte)
    requires bit & (bit - 1) == 0
    ensures i & bit == bit || i & bit == 0
  {
  }

  lemma FromBitsIsSteps(i: byte)
    ensures Steps(8, i as word) == FromBits(i)
  {
    hide Steps, Pick, Xor;
    BitsOfByte(i);
    StepsOfUnits();
    OneBit(i, 0x01);
    OneBit(i, 0x02);
    OneBit(i, 0x04);
    OneBit(i, 0x08);
    OneBit(i, 0x10);
    OneBit(i, 0x20);
    OneBit(i, 0x40);
    OneBit(i, 0x80);
    StepsOfBit(i, 0x01, Steps(8, 0x01));
    StepsOfBit(i, 0x02, Steps(8, 0x02));
    StepsOfBit(i, 0x04, Steps(8, 0x04));
    StepsOfBit(i, 0x08, Steps(8, 0x08));
    StepsOfBit(i, 0x10, Steps(8, 0x10));
    StepsOfBit(i, 0x20, Steps(8, 0x20));
    StepsOfBit(i, 0x40, Steps(8, 0x40));
    StepsOfBit(i, 0x80, Steps(8, 0x80));
    StepsOfEight((i & 0x01) as word, (i & 0x02) as word, (i & 0x04) as word, (i & 0x08) as word,
                 (i & 0x10) as word, (i & 0x20) as word, (i & 0x40) as word, (i & 0x80) as word);
  }

  lemma BitsOfByte(i: byte)
    ensures i as word == Xor(Xor(Xor(Xor(Xor(Xor(Xor((i & 0x01) as word, (i & 0x02) as word), (i & 0x04) as word),
              (i & 0x08) as word), (i & 0x10) as word), (i & 0x20) as word), (i & 0x40) as word), (i & 0x80) as word)
  {
  }

  lemma Row0Entries(j: byte)
    requires j < 16
    ensures Row0(j) == FromBits(0x00 | j)
  {
    hide Row0, FromBits;
    if j < 8 {
      Row0Low(j);
    } else if j < 12 {
      Row0Middle(j);
    } else {
      Row0High(j);
    }
  }

  lemma Row0Low(j: byte)
    requires j < 8
    ensures Row0(j) == FromBits(0x00 | j)
  {
  }

  lemma Row0Middle(j: byte)
    requires 8 <= j < 12
    ensures Row0(j) == FromBits(0x00 | j)
  {
  }

  lemma Row0High(j: byte)
    requires 12 <= j < 16
    ensures Row0(j) == FromBits(0x00 | j)
  {
  }

  lemma Row1Entries(j: byte)
    requires j < 16
    ensures Row1(j) == FromBits(0x10 | j)
  {
  }

  lemma Row2Entries(j: byte)
    requires j < 16
    ensures Row2(j) == FromBits(0x20 | j)
  {
  }

  lemma Row3Entries(j: byte)
    requires j < 16
    ensures Row3(j) == FromBits(0x30 | j)
  {
  }

  lemma Row4Entries(j: byte)
    requires j < 16
    ensures Row4(j) == FromBits(0x40 | j)
  {
  }

  lemma Row5Entries(j: byte)
    requires j < 16
    ensures Row5(j) == FromBits(0x50 | j)
  {
  }

  lemma Row6Entries(j: byte)
    requires j < 16
    ensures Row6(j) == FromBits(0x60 | j)
  {
  }

  lemma Row7Entries(j: byte)
    requires j < 16
    ensures Row7(j) == FromBits(0x70 | j)
  {
  }

  lemma Row8Entries(j: byte)
    requires j < 16
    ensures Row8(j) == FromBits(0x80 | j)
  {
  }

  lemma Row9Entries(j: byte)
    requires j < 16
    ensures Row9(j) == FromBits(0x90 | j)
  {
  }

  lemma RowAEntries(j: byte)
    requires j < 16
    ensures RowA(j) == FromBits(0xA0 | j)
  {
  }

  lemma RowBEntries(j: byte)
    requires j < 16
    ensures RowB(j) == FromBits(0xB0 | j)
  {
  }

  lemma RowCEntries(j: byte)
    requires j < 16
    ensures RowC(j) == FromBits(0xC0 | j)
  {
  }

  lemma RowDEntries(j: byte)
    requires j < 16
    ensures RowD(j) == FromBits(0xD0 | j)
  {
  }

  lemma RowEEntries(j: byte)
    requires j < 16
    ensures RowE(j) == FromBits(0xE0 | j)
  {
  }

  lemma RowFEntries(j: byte)
    requires j < 16
    ensures RowF(j) == FromBits(0xF0 | j)
  {
  }

  /** Every table entry is eight shifts of its index. */
  lemma TableEntry(i: byte)
    ensures Table(i) == Steps(8, i as word)
  {
    FromBitsIsSteps(i);
    hide FromBits, Steps, Row0, Row1, Row2, Row3, Row4, Row5, Row6, Row7, Row8, Row9, RowA, RowB, RowC, RowD, RowE, RowF;
    var j := i & 0xF;
    match i >> 4
    case 0x0 => Row0Entries(j);
    case 0x1 => Row1Entries(j);
    case 0x2 => Row2Entries(j);
    case 0x3 => Row3Entries(j);
    case 0x4 => Row4Entries(j);
    case 0x5 => Row5Entries(j);
    case 0x6 => Row6Entries(j);
    case 0x7 => Row7Entries(j);
    case 0x8 => Row8Entries(j);
    case 0x9 => Row9Entries(j);
    case 0xA => RowAEntries(j);
    case 0xB => RowBEntries(j);
    case 0xC => RowCEntries(j);
    case 0xD => RowDEntries(j);
    case 0xE => RowEEntries(j);
    case _ => RowFEntries(j);
  }
}
